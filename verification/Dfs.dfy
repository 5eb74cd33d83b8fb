/**
The DFS referral cache (src/client/dfs.rs): longest-prefix lookup over an unordered map, filled from
the server's referral responses. Lower-casing is a parameter; `now` is the clock reading.
*/
module Dfs {
  import opened Bytes
  import opened Text

  const SMB_PORT: nat := 445

  /** Clock ticks in a second. */
  const SECOND: nat := 1_000_000_000

  datatype Target = Target(server: string, share: string, remainingPrefix: string)

  datatype CachedReferral = CachedReferral(prefix: string, targets: seq<Target>, expiresAt: nat)

  datatype ResolvedPath = ResolvedPath(server: string, port: nat, share: string, remainingPath: string)

  datatype ReferralEntry = ReferralEntry(dfsPath: string, networkAddress: string, ttl: nat)

  datatype ResolveError = ReferralFailed | NotCovered

  type Cache = map<string, CachedReferral>

  // ---- Strings.

  /** `s` without its leading backslashes. */
  function Trim(s: string): string {
    TrimStart(s, '\\')
  }

  /** Up to the first backslash, and what follows it if there is one. */
  function Cut(s: string): (string, Option<string>) {
    if s == [] then ("", None)
    else if s[0] == '\\' then ("", Some(s[1..]))
    else var (head, rest) := Cut(s[1..]); ([s[0]] + head, rest)
  }

  /** The two parts spell the whole. */
  lemma {:induction false} CutSpells(s: string)
    ensures var (head, rest) := Cut(s);
            '\\' !in head && s == if rest.None? then head else head + "\\" + rest.value
  {
    if s != [] && s[0] != '\\' {
      CutSpells(s[1..]);
      var (head, rest) := Cut(s[1..]);
      assert s == [s[0]] + s[1..];
      if rest.Some? {
        Regroup([s[0]], head, "\\", rest.value);
      }
    }
  }

  lemma Regroup(a: string, b: string, c: string, d: string)
    ensures a + (b + c + d) == a + b + c + d
  {
  }

  lemma {:induction false} CutAtBackslash(head: string, rest: string)
    requires '\\' !in head
    ensures Cut(head + "\\" + rest) == (head, Some(rest))
  {
    if head == [] {
      assert head + "\\" + rest == "\\" + rest;
    } else {
      CutAtBackslash(head[1..], rest);
      assert (head + "\\" + rest)[1..] == head[1..] + "\\" + rest;
      assert [head[0]] + head[1..] == head;
    }
  }

  lemma {:induction false} CutWithoutBackslash(s: string)
    requires '\\' !in s
    ensures Cut(s) == (s, None)
  {
    if s != [] {
      CutWithoutBackslash(s[1..]);
      assert [s[0]] + s[1..] == s;
    }
  }

  function Backslashed(s: string): string {
    seq(|s|, i requires 0 <= i < |s| => if s[i] == '/' then '\\' else s[i])
  }

  function Normalize(fold: string -> string, path: string): string {
    Backslashed(fold(path))
  }

  /** Only slashes are turned; everything else is as the lower-casing left it. */
  lemma NormalizeTurnsSlashes(fold: string -> string, path: string, i: nat)
    requires i < |fold(path)|
    ensures |Normalize(fold, path)| == |fold(path)|
    ensures Normalize(fold, path)[i] == '\\' <==> fold(path)[i] == '\\' || fold(path)[i] == '/'
    ensures fold(path)[i] != '/' ==> Normalize(fold, path)[i] == fold(path)[i]
  {
  }

  // ---- Targets.

  /** Server, share and the rest of a network address, split at the first two backslashes. */
  function ParseUncTarget(address: string): Option<Target>
  {
    var (server, afterServer) := Cut(Trim(address));
    if afterServer.None? then None
    else
      var (share, afterShare) := Cut(afterServer.value);
      var remaining := if afterShare.Some? then afterShare.value else "";
      if server == "" || share == "" then None else Some(Target(server, share, remaining))
  }

  /** What was parsed spells the address. */
  lemma ParsedTargetSpellsTheAddress(address: string)
    requires ParseUncTarget(address).Some?
    ensures var t := ParseUncTarget(address).value;
            && t.server != "" && '\\' !in t.server && t.share != "" && '\\' !in t.share
            && (|| (Trim(address) == t.server + "\\" + t.share && t.remainingPrefix == "")
                || Trim(address) == t.server + "\\" + t.share + "\\" + t.remainingPrefix)
  {
    var (server, afterServer) := Cut(Trim(address));
    var (share, afterShare) := Cut(afterServer.value);
    CutSpells(Trim(address));
    CutSpells(afterServer.value);
    Respell(server, share, if afterShare.Some? then afterShare.value else "");
  }

  lemma Respell(server: string, share: string, rest: string)
    ensures server + "\\" + (share + "\\" + rest) == server + "\\" + share + "\\" + rest
  {
  }

  /** Every address made of a server and a share is understood, with or without a path after them. */
  lemma EveryUncAddressParses(address: string, server: string, share: string, rest: string)
    requires server != "" && '\\' !in server && share != "" && '\\' !in share
    ensures Trim(address) == server + "\\" + share + "\\" + rest
            ==> ParseUncTarget(address) == Some(Target(server, share, rest))
    ensures Trim(address) == server + "\\" + share
            ==> ParseUncTarget(address) == Some(Target(server, share, ""))
  {
    Respell(server, share, rest);
    CutAtBackslash(server, share + "\\" + rest);
    CutAtBackslash(share, rest);
    CutAtBackslash(server, share);
    CutWithoutBackslash(share);
  }

  /** The addresses that parse, in order. */
  function Targets(entries: seq<ReferralEntry>): seq<Target> {
    if entries == [] then []
    else
      var targets, t := Targets(entries[..|entries| - 1]), ParseUncTarget(entries[|entries| - 1].networkAddress);
      if t.Some? then targets + [t.value] else targets
  }

  lemma TargetsOfOne(e: ReferralEntry)
    ensures Targets([e]) == match ParseUncTarget(e.networkAddress) { case Some(t) => [t] case None => [] }
  {
    assert [e][..0] == [];
  }

  /** The targets of two lists are the targets of the first, then those of the second. */
  lemma {:induction false} TargetsKeepTheirOrder(a: seq<ReferralEntry>, b: seq<ReferralEntry>)
    ensures Targets(a + b) == Targets(a) + Targets(b)
  {
    if b == [] {
      assert a + b == a && Targets(a) + [] == Targets(a);
    } else {
      var n := |b| - 1;
      TargetsKeepTheirOrder(a, b[..n]);
      assert (a + b)[..|a + b| - 1] == a + b[..n];
    }
  }

  // ---- Lookup.

  /** Each referral is filed under its own prefix and has somewhere to go. */
  ghost predicate Filed(cache: Cache) {
    forall k :: k in cache ==> cache[k].prefix == k && cache[k].targets != []
  }

  /** An unexpired referral whose prefix begins the path, character by character. */
  predicate Covers(e: CachedReferral, path: string, now: nat) {
    e.prefix <= path && e.expiresAt > now
  }

  ghost predicate Best(cache: Cache, path: string, now: nat, k: string) {
    && k in cache && Covers(cache[k], path, now)
    && forall other :: other in cache && Covers(cache[other], path, now) ==> |other| <= |k|
  }

  ghost predicate Covered(cache: Cache, path: string, now: nat) {
    exists k :: k in cache && Covers(cache[k], path, now)
  }

  /** What a lookup must say: nothing when no referral covers the path, else the longest one's answer. */
  ghost predicate Correct(cache: Cache, path: string, now: nat, r: Option<seq<ResolvedPath>>) {
    && (r.Some? <==> Covered(cache, path, now))
    && forall k :: Best(cache, path, now, k) ==> r == Some(Answer(cache[k], path))
  }

  /** There is never a tie. */
  lemma BestIsUnique(cache: Cache, path: string, now: nat, a: string, b: string)
    requires Filed(cache) && Best(cache, path, now, a) && Best(cache, path, now, b)
    ensures a == b
  {
    assert a == path[..|a|] && b == path[..|b|];
  }

  function Rebase(target: Target, remaining: string): ResolvedPath {
    ResolvedPath(
      target.server, SMB_PORT, target.share,
      if target.remainingPrefix == "" then remaining
      else if remaining == "" then target.remainingPrefix
      else target.remainingPrefix + "\\" + remaining)
  }

  /** The path below the prefix, re-rooted at each target in order. */
  function Answer(e: CachedReferral, path: string): seq<ResolvedPath>
    requires e.prefix <= path
  {
    var remaining := Trim(path[|e.prefix|..]);
    seq(|e.targets|, i requires 0 <= i < |e.targets| => Rebase(e.targets[i], remaining))
  }

  /** Each target gets its own answer, and nothing of the path is lost but the prefix and separators. */
  lemma AnswerKeepsThePath(e: CachedReferral, path: string, i: nat) returns (rest: string)
    requires e.prefix <= path && i < |e.targets|
    ensures |Answer(e, path)| == |e.targets|
    ensures |e.prefix| + |rest| <= |path| && path[|path| - |rest|..] == rest && !("\\" <= rest)
    ensures forall j :: |e.prefix| <= j < |path| - |rest| ==> path[j] == '\\'
    ensures var t, a := e.targets[i], Answer(e, path)[i];
            && a.server == t.server && a.share == t.share && a.port == SMB_PORT
            && (t.remainingPrefix != "" && rest != "" ==> a.remainingPath == t.remainingPrefix + "\\" + rest)
            && (t.remainingPrefix == "" || rest == "" ==> a.remainingPath == t.remainingPrefix + rest)
  {
    var tail := path[|e.prefix|..];
    TrimStartTakesOnlyThat(tail, '\\');
    rest := Trim(tail);
    assert path[|path| - |rest|..] == tail[|tail| - |rest|..];
    forall j | |e.prefix| <= j < |path| - |rest| ensures path[j] == '\\' {
      assert path[j] == tail[j - |e.prefix|];
    }
    JoinIsExact(e.targets[i], rest);
  }

  lemma JoinIsExact(t: Target, rest: string)
    ensures var joined := Rebase(t, rest).remainingPath;
            && (t.remainingPrefix != "" && rest != "" ==> joined == t.remainingPrefix + "\\" + rest)
            && (t.remainingPrefix == "" || rest == "" ==> joined == t.remainingPrefix + rest)
  {
    assert t.remainingPrefix + "" == t.remainingPrefix;
    assert "" + rest == rest;
  }

  // ---- Filling the cache.

  /** The key a referral is filed under. */
  function Prefix(fold: string -> string, dfsPath: string): string {
    var p := Normalize(fold, dfsPath);
    if !("\\\\" <= p) && "\\" <= p then "\\\\" + p[1..] else p
  }

  /** A key that starts with one separator is filed with two; any other key as it is. */
  lemma PrefixIsUnc(fold: string -> string, dfsPath: string)
    ensures var n, p := Normalize(fold, dfsPath), Prefix(fold, dfsPath);
            && ("\\" <= n ==> "\\\\" <= p && Trim(p) == Trim(n))
            && (!("\\" <= n) || "\\\\" <= n ==> p == n)
            && |n| <= |p| <= |n| + 1
  {
    var n := Normalize(fold, dfsPath);
    if "\\" <= n && !("\\\\" <= n) {
      assert ("\\\\" + n[1..])[1..] == n;
    }
  }

  /** What a referral response has to say: nothing if no entry names a usable target. */
  function Lesson(fold: string -> string, entries: seq<ReferralEntry>, now: nat): Option<CachedReferral> {
    if entries == [] || Targets(entries) == [] then None
    else
      Some(CachedReferral(
             Prefix(fold, entries[0].dfsPath), Targets(entries), now + Max(entries[0].ttl, 1) * SECOND))
  }

  /** The cache after a lesson: filed under its own prefix, in place of what was there. */
  function Learned(cache: Cache, lesson: Option<CachedReferral>): Cache {
    match lesson
    case None => cache
    case Some(e) => cache[e.prefix := e]
  }

  lemma LearnedIsFiled(cache: Cache, lesson: Option<CachedReferral>)
    requires Filed(cache) && (lesson.Some? ==> lesson.value.targets != [])
    ensures Filed(Learned(cache, lesson))
  {
  }

  /** A learned referral that covers a path hits until it expires, and answers itself unless a longer one does. */
  lemma JustLearnedHits(
      fold: string -> string, cache: Cache, entries: seq<ReferralEntry>, learnt: nat, path: string, now: nat)
    requires Filed(cache) && entries != [] && Targets(entries) != []
    requires Prefix(fold, entries[0].dfsPath) <= path
    requires now < learnt + Max(entries[0].ttl, 1) * SECOND
    ensures var after := Learned(cache, Lesson(fold, entries, learnt));
            var prefix := Prefix(fold, entries[0].dfsPath);
            exists k :: Best(after, path, now, k)
                        && (|| (k == prefix && after[k].targets == Targets(entries))
                            || (|k| > |prefix| && k in cache && after[k] == cache[k]))
  {
    var k := InsertedHits(cache, Lesson(fold, entries, learnt).value, path, now);
  }

  /** From the moment it expires a learned referral covers nothing. */
  lemma LearnedExpires(
      fold: string -> string, cache: Cache, entries: seq<ReferralEntry>, learnt: nat, path: string, now: nat)
    requires entries != [] && Targets(entries) != [] && now >= learnt + Max(entries[0].ttl, 1) * 1_000_000_000
    ensures var after, prefix := Learned(cache, Lesson(fold, entries, learnt)), Prefix(fold, entries[0].dfsPath);
            prefix in after && !Covers(after[prefix], path, now) && !Best(after, path, now, prefix)
  {
  }

  lemma InsertedHits(cache: Cache, e: CachedReferral, path: string, now: nat) returns (k: string)
    requires Filed(cache) && e.targets != [] && Covers(e, path, now)
    ensures Best(cache[e.prefix := e], path, now, k)
    ensures k == e.prefix || (|k| > |e.prefix| && k in cache)
  {
    var after := cache[e.prefix := e];
    assert Covers(after[e.prefix], path, now);
    k := SomeBest(after, path, now, e.prefix);
    assert |e.prefix| <= |k|;
    assert k == path[..|k|] && e.prefix == path[..|e.prefix|];
  }

  /** A covered path has a longest cover. */
  lemma SomeBest(cache: Cache, path: string, now: nat, k: string) returns (best: string)
    requires k in cache && Filed(cache) && Covers(cache[k], path, now)
    ensures Best(cache, path, now, best)
    decreases |path| - |k|
  {
    if longer :| longer in cache && Covers(cache[longer], path, now) && |longer| > |k| {
      best := SomeBest(cache, path, now, longer);
    } else {
      best := k;
    }
  }

  /** A lookup has one correct answer, so the order the map is walked in cannot show. */
  lemma LookupIsDetermined(
      cache: Cache, path: string, now: nat, a: Option<seq<ResolvedPath>>, b: Option<seq<ResolvedPath>>)
    requires Filed(cache) && Correct(cache, path, now, a) && Correct(cache, path, now, b)
    ensures a == b
  {
    if Covered(cache, path, now) {
      var k :| k in cache && Covers(cache[k], path, now);
      var best := SomeBest(cache, path, now, k);
    }
  }

  /** Learning touches one prefix only. */
  lemma LearningIsLocal(cache: Cache, lesson: Option<CachedReferral>, k: string)
    requires k in cache && (lesson.Some? ==> k != lesson.value.prefix)
    ensures k in Learned(cache, lesson) && Learned(cache, lesson)[k] == cache[k]
  {
  }

  method CanonicalPrefix(fold: string -> string, dfsPath: string) returns (prefix: string)
    ensures prefix == Prefix(fold, dfsPath)
  {
    prefix := Normalize(fold, dfsPath);
    if !("\\\\" <= prefix) {
      if "\\" <= prefix {
        prefix := "\\\\" + prefix[1..];
      }
    }
  }

  method ParseTargets(entries: seq<ReferralEntry>) returns (targets: seq<Target>)
    ensures targets == Targets(entries)
  {
    targets := [];
    for i := 0 to |entries|
      invariant targets == Targets(entries[..i])
    {
      assert entries[..i + 1][..i] == entries[..i];
      var t := ParseUncTarget(entries[i].networkAddress);
      if t.Some? {
        targets := targets + [t.value];
      }
    }
    assert entries[..|entries|] == entries;
  }

  method ReadReferral(fold: string -> string, entries: seq<ReferralEntry>, now: nat)
    returns (lesson: Option<CachedReferral>)
    ensures lesson == Lesson(fold, entries, now)
    ensures lesson.Some? ==> lesson.value.targets != []
  {
    if entries == [] {
      return None;
    }
    var prefix := CanonicalPrefix(fold, entries[0].dfsPath);
    var targets := ParseTargets(entries);
    if targets == [] {
      return None;
    }
    var ttl := Max(entries[0].ttl, 1);
    return Some(CachedReferral(prefix, targets, now + ttl * SECOND));
  }

  class DfsResolver {
    const fold: string -> string
    var cache: Cache
    var cacheHits: nat
    var referralsResolved: nat

    constructor (fold: string -> string)
      ensures this.fold == fold && cache == map[] && cacheHits == 0 && referralsResolved == 0
      ensures Filed(cache)
    {
      this.fold := fold;
      cache, cacheHits, referralsResolved := map[], 0, 0;
    }

    /** Whatever order the entries come in, the longest unexpired prefix answers. */
    method ResolveFromCache(uncPath: string, now: nat) returns (r: Option<seq<ResolvedPath>>)
      requires Filed(cache)
      ensures Correct(cache, Normalize(fold, uncPath), now, r)
    {
      var normalized := Normalize(fold, uncPath);
      var best: Option<CachedReferral> := None;
      var todo := cache.Keys;
      while todo != {}
        invariant todo <= cache.Keys
        invariant best.None? ==> forall k :: k in cache && k !in todo ==> !Covers(cache[k], normalized, now)
        invariant best.Some? ==>
                    var b := best.value.prefix;
                    && b in cache && cache[b] == best.value && Covers(best.value, normalized, now)
                    && forall k :: k in cache && k !in todo && Covers(cache[k], normalized, now) ==> |k| <= |b|
        decreases todo
      {
        var k :| k in todo;
        var entry := cache[k];
        if && entry.prefix <= normalized && entry.expiresAt > now
           && (best.None? || |entry.prefix| > |best.value.prefix|) {
          best := Some(entry);
        }
        todo := todo - {k};
      }
      if best.None? {
        return None;
      }
      ghost var b := best.value.prefix;
      assert Best(cache, normalized, now, b);
      forall k | Best(cache, normalized, now, k) ensures k == b {
        BestIsUnique(cache, normalized, now, k, b);
      }
      return Some(Answer(best.value, normalized));
    }

    method CacheReferral(entries: seq<ReferralEntry>, now: nat)
      requires Filed(cache)
      modifies this`cache
      ensures cache == Learned(old(cache), Lesson(fold, entries, now)) && Filed(cache)
    {
      var lesson := ReadReferral(fold, entries, now);
      LearnedIsFiled(cache, lesson);
      if lesson.Some? {
        cache := cache[lesson.value.prefix := lesson.value];
      }
    }

    /**
    Cache first, then the server, then the cache again. `reply` is what the server would answer to a
    referral request, and `learnt` and `now` are the clock when the answer is filed and looked up.
    */
    method Resolve(uncPath: string, asked: nat, reply: Option<seq<ReferralEntry>>, learnt: nat, now: nat)
        returns (r: Result<seq<ResolvedPath>, ResolveError>)
      requires Filed(cache) && asked <= learnt <= now
      modifies this
      ensures Filed(cache)
      // A hit leaves the cache alone and does not ask.
      ensures Covered(old(cache), Normalize(fold, uncPath), asked) ==>
                && cache == old(cache) && cacheHits == old(cacheHits) + 1 && referralsResolved == old(referralsResolved)
                && r.Ok? && Correct(cache, Normalize(fold, uncPath), asked, Some(r.value))
      // A miss asks once, and answers from what it learned.
      ensures !Covered(old(cache), Normalize(fold, uncPath), asked) && reply.None? ==>
                && cache == old(cache) && cacheHits == old(cacheHits) && referralsResolved == old(referralsResolved)
                && r == Err(ReferralFailed)
      ensures !Covered(old(cache), Normalize(fold, uncPath), asked) && reply.Some? ==>
                && cache == Learned(old(cache), Lesson(fold, reply.value, learnt))
                && cacheHits == old(cacheHits) && referralsResolved == old(referralsResolved) + 1
                && (r.Err? ==> r.error == NotCovered)
                && Correct(cache, Normalize(fold, uncPath), now, if r.Ok? then Some(r.value) else None)
    {
      var resolved := ResolveFromCache(uncPath, asked);
      if resolved.Some? {
        cacheHits := cacheHits + 1;
        return Ok(resolved.value);
      }
      if reply.None? {
        return Err(ReferralFailed);
      }
      referralsResolved := referralsResolved + 1;
      r := LearnAndResolve(uncPath, reply.value, learnt, now);
    }

    /** The answer to the referral request is filed, then the path looked up again. */
    method LearnAndResolve(uncPath: string, entries: seq<ReferralEntry>, learnt: nat, now: nat)
        returns (r: Result<seq<ResolvedPath>, ResolveError>)
      requires Filed(cache)
      modifies this`cache
      ensures cache == Learned(old(cache), Lesson(fold, entries, learnt)) && Filed(cache)
      ensures r.Err? ==> r.error == NotCovered
      ensures Correct(cache, Normalize(fold, uncPath), now, if r.Ok? then Some(r.value) else None)
    {
      CacheReferral(entries, learnt);
      var resolved := ResolveFromCache(uncPath, now);
      r := if resolved.Some? then Ok(resolved.value) else Err(NotCovered);
    }
  }
}
