/**
The private-use-area mapping for names SMB2 does not allow on the wire (src/name.rs).
*/
module Names {
  import opened Bytes
  import opened Text

  const PUA_BASE: int := 0xF000

  const PUA_LAST: int := 0xF029

  const WIRE_TRAILING_SPACE: char := '\U{F028}'

  const WIRE_TRAILING_PERIOD: char := '\U{F029}'

  // ---- Characters.

  function EncodeChar(c: char): Option<char> {
    if 0x01 <= c as int <= 0x1F then Some((PUA_BASE + c as int) as char)
    else match c
         case '"' => Some('\U{F020}')
         case '*' => Some('\U{F021}')
         case ':' => Some('\U{F022}')
         case '<' => Some('\U{F023}')
         case '>' => Some('\U{F024}')
         case '?' => Some('\U{F025}')
         case '\\' => Some('\U{F026}')
         case '|' => Some('\U{F027}')
         case _ => None
  }

  function DecodeChar(c: char): Option<char> {
    if 0xF001 <= c as int <= 0xF01F then Some((c as int - PUA_BASE) as char)
    else match c
         case '\U{F020}' => Some('"')
         case '\U{F021}' => Some('*')
         case '\U{F022}' => Some(':')
         case '\U{F023}' => Some('<')
         case '\U{F024}' => Some('>')
         case '\U{F025}' => Some('?')
         case '\U{F026}' => Some('\\')
         case '\U{F027}' => Some('|')
         case '\U{F028}' => Some(' ')
         case '\U{F029}' => Some('.')
         case _ => None
  }

  predicate IsMapped(c: char) {
    PUA_BASE < c as int <= PUA_LAST
  }

  /** What one character of a name becomes on the wire. */
  function WireChar(c: char, isLast: bool): char {
    if c == ' ' && isLast then WIRE_TRAILING_SPACE
    else if c == '.' && isLast then WIRE_TRAILING_PERIOD
    else match EncodeChar(c)
         case Some(w) => w
         case None => c
  }

  function LocalChar(c: char): char {
    match DecodeChar(c)
    case Some(l) => l
    case None => c
  }

  /** Characters SMB2 rejects anywhere in a name. */
  predicate Illegal(c: char) {
    0x01 <= c as int <= 0x1F || c in ['"', '*', ':', '<', '>', '?', '\\', '|']
  }

  /** The table and its inverse: a character survives the trip unless the scheme already owns it. */
  lemma CharRoundTrip(c: char, isLast: bool)
    ensures LocalChar(WireChar(c, isLast)) == c <==> !IsMapped(c)
    ensures !Illegal(WireChar(c, isLast))
    ensures isLast ==> WireChar(c, isLast) != ' ' && WireChar(c, isLast) != '.'
    ensures WireChar(c, isLast) == '/' ==> c == '/'
  {
  }

  /**
  The table in full: exactly the illegal characters are mapped, in the order of their codes, onto
  U+F001 to U+F027; a trailing space and a trailing period take the next two.
  */
  lemma TheTableIsInOrder(a: char, b: char, wire: int)
    ensures EncodeChar(a).Some? <==> Illegal(a)
    ensures Illegal(a) && Illegal(b) && a < b ==> EncodeChar(a).value < EncodeChar(b).value
    ensures Illegal(a) ==> 0xF001 <= EncodeChar(a).value as int <= 0xF027
    ensures 0xF001 <= wire <= 0xF027 ==>
              DecodeChar(wire as char).Some? && EncodeChar(DecodeChar(wire as char).value) == Some(wire as char)
    ensures WireChar(' ', true) as int == 0xF028 && WireChar('.', true) as int == 0xF029
    ensures WireChar(' ', false) == ' ' && WireChar('.', false) == '.'
    ensures !Illegal(a) && a != ' ' && a != '.' ==> WireChar(a, true) == a && WireChar(a, false) == a
  {
  }

  /** The cheap pre-check of the fast path is exact. */
  lemma MappedIsDecodable(c: char)
    ensures IsMapped(c) <==> DecodeChar(c).Some?
  {
  }

  // ---- Names.

  function Encoded(name: string): (r: string)
    ensures |r| == |name|
    ensures forall i :: 0 <= i < |name| ==> r[i] == WireChar(name[i], i == |name| - 1)
  {
    seq(|name|, i requires 0 <= i < |name| => WireChar(name[i], i == |name| - 1))
  }

  function Decoded(name: string): (r: string)
    ensures |r| == |name|
    ensures forall i :: 0 <= i < |name| ==> r[i] == LocalChar(name[i])
  {
    seq(|name|, i requires 0 <= i < |name| => LocalChar(name[i]))
  }

  /** Returns the name itself when nothing needs mapping, and otherwise maps it character by character. */
  method EncodeName(name: string) returns (out: string)
    ensures out == Encoded(name)
  {
    var endsIllegally := |name| > 0 && (name[|name| - 1] == ' ' || name[|name| - 1] == '.');
    if !endsIllegally && forall i :: 0 <= i < |name| ==> EncodeChar(name[i]).None? {
      return name;
    }
    out := [];
    for i := 0 to |name|
      invariant out == Encoded(name)[..i]
    {
      var c := name[i];
      var isLast := i + 1 == |name|;
      var mapped := if c == ' ' && isLast then Some(WIRE_TRAILING_SPACE)
                    else if c == '.' && isLast then Some(WIRE_TRAILING_PERIOD)
                    else EncodeChar(c);
      out := out + [if mapped.Some? then mapped.value else c];
    }
  }

  method DecodeName(name: string) returns (out: string)
    ensures out == Decoded(name)
  {
    if forall i :: 0 <= i < |name| ==> !IsMapped(name[i]) {
      forall i | 0 <= i < |name| ensures LocalChar(name[i]) == name[i] {
        MappedIsDecodable(name[i]);
      }
      return name;
    }
    out := [];
    for i := 0 to |name|
      invariant out == Decoded(name)[..i]
    {
      out := out + [LocalChar(name[i])];
    }
  }

  ghost predicate Unmapped(name: string) {
    forall i :: 0 <= i < |name| ==> !IsMapped(name[i])
  }

  /** Nothing SMB2 refuses survives an encode. */
  ghost predicate WireSafe(name: string) {
    && (forall i :: 0 <= i < |name| ==> !Illegal(name[i]))
    && (name != [] ==> name[|name| - 1] != ' ' && name[|name| - 1] != '.')
  }

  /** A name round-trips exactly when it holds no code point of the scheme. */
  lemma NameRoundTrip(name: string)
    ensures Decoded(Encoded(name)) == name <==> Unmapped(name)
    ensures WireSafe(Encoded(name))
  {
    forall i | 0 <= i < |name|
      ensures Decoded(Encoded(name))[i] == name[i] <==> !IsMapped(name[i])
      ensures !Illegal(Encoded(name)[i])
    {
      CharRoundTrip(name[i], i == |name| - 1);
    }
    if name != [] {
      CharRoundTrip(name[|name| - 1], true);
    }
  }

  // ---- Paths.

  function Split(s: string, sep: char): (r: seq<string>)
    ensures r != []
  {
    if s == [] then [[]]
    else
      var n := |s| - 1;
      var init := Split(s[..n], sep);
      if s[n] == sep then init + [[]]
      else init[..|init| - 1] + [init[|init| - 1] + [s[n]]]
  }

  function Join(parts: seq<string>, sep: char): string {
    if parts == [] then []
    else if |parts| == 1 then parts[0]
    else Join(parts[..|parts| - 1], sep) + [sep] + parts[|parts| - 1]
  }

  function WireComponent(c: string): string {
    if c == "." || c == ".." then c else Encoded(c)
  }

  function WireComponents(cs: seq<string>): (r: seq<string>)
    ensures |r| == |cs| && forall i :: 0 <= i < |cs| ==> r[i] == WireComponent(cs[i])
  {
    seq(|cs|, i requires 0 <= i < |cs| => WireComponent(cs[i]))
  }

  function LocalComponents(cs: seq<string>): (r: seq<string>)
    ensures |r| == |cs| && forall i :: 0 <= i < |cs| ==> r[i] == Decoded(cs[i])
  {
    seq(|cs|, i requires 0 <= i < |cs| => Decoded(cs[i]))
  }

  function WirePath(path: string): string {
    Join(WireComponents(Split(TrimStart(path, '/'), '/')), '\\')
  }

  function LocalPath(wire: string): string {
    Join(LocalComponents(Split(wire, '\\')), '/')
  }

  lemma JoinStep(parts: seq<string>, sep: char, i: nat)
    requires i < |parts|
    ensures Join(parts[..i + 1], sep) == (if i > 0 then Join(parts[..i], sep) + [sep] else []) + parts[i]
  {
    assert parts[..i + 1][..i] == parts[..i];
  }

  method EncodePath(path: string) returns (out: string)
    ensures out == WirePath(path)
  {
    var components := Split(TrimStart(path, '/'), '/');
    ghost var wired := WireComponents(components);
    out := [];
    for i := 0 to |components|
      invariant out == Join(wired[..i], '\\')
    {
      JoinStep(wired, '\\', i);
      if i > 0 {
        out := out + ['\\'];
      }
      if components[i] == "." || components[i] == ".." {
        out := out + components[i];
      } else {
        var name := EncodeName(components[i]);
        out := out + name;
      }
    }
    assert wired[..|components|] == wired;
  }

  method DecodePath(wire: string) returns (out: string)
    ensures out == LocalPath(wire)
  {
    var components := Split(wire, '\\');
    ghost var local := LocalComponents(components);
    out := [];
    for i := 0 to |components|
      invariant out == Join(local[..i], '/')
    {
      JoinStep(local, '/', i);
      if i > 0 {
        out := out + ['/'];
      }
      var name := DecodeName(components[i]);
      out := out + name;
    }
    assert local[..|components|] == local;
  }

  ghost predicate Lacks(s: string, c: char) {
    forall i :: 0 <= i < |s| ==> s[i] != c
  }

  /** Growing the last part grows the join. */
  lemma JoinGrows(parts: seq<string>, c: char, sep: char)
    requires parts != []
    ensures var m := |parts| - 1;
            Join(parts[..m] + [parts[m] + [c]], sep) == Join(parts, sep) + [c]
  {
    var m := |parts| - 1;
    var grown := parts[..m] + [parts[m] + [c]];
    JoinStep(parts, sep, m);
    JoinStep(grown, sep, m);
    assert parts[..m + 1] == parts && grown[..m + 1] == grown && grown[..m] == parts[..m];
  }

  lemma {:induction false} JoinAfterSplit(s: string, sep: char)
    ensures Join(Split(s, sep), sep) == s
  {
    if s != [] {
      var n := |s| - 1;
      var init := Split(s[..n], sep);
      JoinAfterSplit(s[..n], sep);
      assert s == s[..n] + [s[n]];
      if s[n] == sep {
        assert (init + [[]])[..|init|] == init;
      } else {
        JoinGrows(init, s[n], sep);
      }
    }
  }

  /** One more character: a new empty part, or one more in the last. */
  lemma SplitSnoc(s: string, c: char, sep: char)
    ensures var init := Split(s, sep);
            Split(s + [c], sep)
            == if c == sep then init + [[]] else init[..|init| - 1] + [init[|init| - 1] + [c]]
  {
    assert (s + [c])[..|s|] == s;
  }

  lemma {:induction false} SplitAppend(a: string, c: string, sep: char)
    requires Lacks(c, sep)
    ensures Split(a + [sep] + c, sep) == Split(a, sep) + [c]
  {
    if c == [] {
      assert a + [sep] + c == a + [sep];
      SplitSnoc(a, sep, sep);
    } else {
      var n := |c| - 1;
      SplitAppend(a, c[..n], sep);
      SplitSnoc(a + [sep] + c[..n], c[n], sep);
      Snocced(a + [sep], c);
      LastGrows(Split(a, sep), c);
    }
  }

  lemma Snocced(a: string, c: string)
    requires c != []
    ensures a + c == a + c[..|c| - 1] + [c[|c| - 1]]
  {
  }

  lemma LastGrows(parts: seq<string>, c: string)
    requires c != []
    ensures var init := parts + [c[..|c| - 1]];
            init[..|init| - 1] + [init[|init| - 1] + [c[|c| - 1]]] == parts + [c]
  {
    assert c[..|c| - 1] + [c[|c| - 1]] == c;
  }

  lemma {:induction false} SplitWhole(c: string, sep: char)
    requires Lacks(c, sep)
    ensures Split(c, sep) == [c]
  {
    if c != [] {
      SplitWhole(c[..|c| - 1], sep);
      assert c == c[..|c| - 1] + [c[|c| - 1]];
    }
  }

  lemma {:induction false} SplitAfterJoin(parts: seq<string>, sep: char)
    requires parts != [] && forall i :: 0 <= i < |parts| ==> Lacks(parts[i], sep)
    ensures Split(Join(parts, sep), sep) == parts
  {
    var n := |parts| - 1;
    if n == 0 {
      SplitWhole(parts[0], sep);
    } else {
      SplitAfterJoin(parts[..n], sep);
      JoinSnoc(parts, sep);
      SplitAppend(Join(parts[..n], sep), parts[n], sep);
      assert parts == parts[..n] + [parts[n]];
    }
  }

  lemma JoinSnoc(parts: seq<string>, sep: char)
    requires |parts| > 1
    ensures var n := |parts| - 1; Join(parts, sep) == Join(parts[..n], sep) + [sep] + parts[n]
  {
  }

  lemma ComponentRoundTrip(c: string)
    ensures Decoded(WireComponent(c)) == c <==> Unmapped(c)
    ensures |WireComponent(c)| == |c| && Lacks(WireComponent(c), '\\')
    ensures c != "." && c != ".." ==> WireSafe(WireComponent(c))
  {
    NameRoundTrip(c);
    if c == "." || c == ".." {
      assert forall i :: 0 <= i < |c| ==> c[i] == '.';
    } else {
      forall i | 0 <= i < |c| ensures Encoded(c)[i] != '\\' {
        assert !Illegal(Encoded(c)[i]);
      }
    }
  }

  /** Decoding an encoded path decodes each component on its own: no encoded component holds a separator. */
  lemma PathByComponents(path: string)
    ensures LocalPath(WirePath(path))
            == Join(LocalComponents(WireComponents(Split(TrimStart(path, '/'), '/'))), '/')
  {
    var wired := WireComponents(Split(TrimStart(path, '/'), '/'));
    forall i | 0 <= i < |wired| ensures Lacks(wired[i], '\\') {
      ComponentRoundTrip(Split(TrimStart(path, '/'), '/')[i]);
    }
    SplitAfterJoin(wired, '\\');
  }

  /** Two joins with components of the same lengths are equal only part by part. */
  lemma {:induction false} JoinsAgree(xs: seq<string>, ys: seq<string>, sep: char)
    requires |xs| == |ys| && forall i :: 0 <= i < |xs| ==> |xs[i]| == |ys[i]|
    ensures |Join(xs, sep)| == |Join(ys, sep)|
    ensures Join(xs, sep) == Join(ys, sep) <==> xs == ys
  {
    var n := |xs| - 1;
    if n > 0 {
      JoinsAgree(xs[..n], ys[..n], sep);
      var a, b := Join(xs[..n], sep), Join(ys[..n], sep);
      assert Join(xs, sep) == a + [sep] + xs[n] && Join(ys, sep) == b + [sep] + ys[n];
      if Join(xs, sep) == Join(ys, sep) {
        assert a == Join(xs, sep)[..|a|] == b;
        assert xs[n] == Join(xs, sep)[|a| + 1..] == ys[n];
        assert xs == xs[..n] + [xs[n]] && ys == ys[..n] + [ys[n]];
      }
    }
  }

  ghost predicate AllUnmapped(parts: seq<string>) {
    forall i :: 0 <= i < |parts| ==> Unmapped(parts[i])
  }

  lemma AllUnmappedAppend(parts: seq<string>, last: string)
    ensures AllUnmapped(parts + [last]) <==> AllUnmapped(parts) && Unmapped(last)
  {
    assert (parts + [last])[|parts|] == last;
    assert forall i :: 0 <= i < |parts| ==> (parts + [last])[i] == parts[i];
  }

  lemma UnmappedAppend(part: string, c: char)
    ensures Unmapped(part + [c]) <==> Unmapped(part) && !IsMapped(c)
  {
    assert (part + [c])[|part|] == c;
    assert forall i :: 0 <= i < |part| ==> (part + [c])[i] == part[i];
  }

  lemma {:induction false} UnmappedParts(s: string, sep: char)
    requires !IsMapped(sep)
    ensures Unmapped(s) <==> AllUnmapped(Split(s, sep))
  {
    if s != [] {
      var n := |s| - 1;
      var init := Split(s[..n], sep);
      var m := |init| - 1;
      UnmappedParts(s[..n], sep);
      assert s == s[..n] + [s[n]] && init == init[..m] + [init[m]];
      UnmappedAppend(s[..n], s[n]);
      AllUnmappedAppend(init, []);
      AllUnmappedAppend(init[..m], init[m]);
      AllUnmappedAppend(init[..m], init[m] + [s[n]]);
      UnmappedAppend(init[m], s[n]);
    }
  }

  /** The trip of a path without a leading `/`. */
  lemma TrimmedRoundTrip(trimmed: string)
    ensures var back := Join(LocalComponents(WireComponents(Split(trimmed, '/'))), '/');
            |back| == |trimmed| && (back == trimmed <==> Unmapped(trimmed))
  {
    var parts := Split(trimmed, '/');
    var back := LocalComponents(WireComponents(parts));
    JoinAfterSplit(trimmed, '/');
    forall i | 0 <= i < |parts|
      ensures |back[i]| == |parts[i]| && (back[i] == parts[i] <==> Unmapped(parts[i]))
    {
      ComponentRoundTrip(parts[i]);
    }
    JoinsAgree(back, parts, '/');
    UnmappedParts(trimmed, '/');
    assert back == parts <==> forall i :: 0 <= i < |parts| ==> back[i] == parts[i];
  }

  /**
  A path comes back from the wire unchanged exactly when it has no leading `/` and holds no code
  point of the scheme.
  */
  lemma PathRoundTrip(path: string)
    ensures LocalPath(WirePath(path)) == path <==> Unmapped(path) && (path == [] || path[0] != '/')
  {
    var trimmed := TrimStart(path, '/');
    PathByComponents(path);
    TrimmedRoundTrip(trimmed);
    TrimStartTakesOnlyThat(path, '/');
    assert |trimmed| == |path| ==> path[0..] == path;
  }

  // ---- From the wire and back.

  predicate TrailingOnly(c: char) {
    c == WIRE_TRAILING_SPACE || c == WIRE_TRAILING_PERIOD
  }

  /** A wire character survives unless SMB2 refuses it or it belongs at the end and is not there. */
  lemma WireCharRoundTrip(c: char, isLast: bool)
    ensures WireChar(LocalChar(c), isLast) == c
            <==> !Illegal(c) && (if isLast then c != ' ' && c != '.' else !TrailingOnly(c))
    ensures LocalChar(c) == '/' <==> c == '/'
  {
  }

  /** Legal on the wire, with the two trailing marks nowhere but at the end. */
  ghost predicate Canonical(name: string) {
    WireSafe(name) && forall i :: 0 <= i < |name| - 1 ==> !TrailingOnly(name[i])
  }

  /** A wire name comes back from decoding and encoding exactly when it is canonical. */
  lemma WireNameRoundTrip(name: string)
    ensures Encoded(Decoded(name)) == name <==> Canonical(name)
  {
    forall i | 0 <= i < |name|
      ensures Encoded(Decoded(name))[i] == name[i]
              <==> (!Illegal(name[i])
                    && if i == |name| - 1 then name[i] != ' ' && name[i] != '.' else !TrailingOnly(name[i]))
    {
      WireCharRoundTrip(name[i], i == |name| - 1);
    }
    if Encoded(Decoded(name)) == name {
      forall i | 0 <= i < |name| ensures !Illegal(name[i]) {
        assert Encoded(Decoded(name))[i] == name[i];
      }
      forall i | 0 <= i < |name| - 1 ensures !TrailingOnly(name[i]) {
        assert Encoded(Decoded(name))[i] == name[i];
      }
      if name != [] {
        assert Encoded(Decoded(name))[|name| - 1] == name[|name| - 1];
      }
    }
  }

  predicate Relative(name: string) {
    name == "." || name == ".."
  }

  /** A relative name as it is, or a canonical one that does not decode to a relative name. */
  ghost predicate Returns(c: string) {
    Relative(c) || (Canonical(c) && !Relative(Decoded(c)))
  }

  lemma WireComponentRoundTrip(c: string)
    ensures WireComponent(Decoded(c)) == c <==> Returns(c)
    ensures |WireComponent(Decoded(c))| == |c|
  {
    WireNameRoundTrip(c);
    if Relative(c) {
      assert forall i :: 0 <= i < |c| ==> LocalChar(c[i]) == c[i];
      assert Decoded(c) == c;
    }
  }

  lemma DecodedLacksSlash(c: string)
    ensures Lacks(Decoded(c), '/') <==> Lacks(c, '/')
  {
    forall i | 0 <= i < |c| ensures Decoded(c)[i] == '/' <==> c[i] == '/' {
      WireCharRoundTrip(c[i], false);
    }
  }

  ghost predicate AllReturn(parts: seq<string>) {
    forall i :: 0 <= i < |parts| ==> Returns(parts[i])
  }

  lemma {:induction false} JoinLacks(parts: seq<string>, sep: char, c: char)
    requires sep != c && forall i :: 0 <= i < |parts| ==> Lacks(parts[i], c)
    ensures Lacks(Join(parts, sep), c)
  {
    var n := |parts| - 1;
    if n > 0 {
      JoinLacks(parts[..n], sep, c);
    }
  }

  /** No part of a split holds the separator, nor anything the whole does not hold. */
  lemma {:induction false} PartsLack(s: string, sep: char, c: char)
    requires c == sep || Lacks(s, c)
    ensures forall i :: 0 <= i < |Split(s, sep)| ==> Lacks(Split(s, sep)[i], c)
  {
    if s != [] {
      PartsLack(s[..|s| - 1], sep, c);
    }
  }

  /** No `/` ever goes out. */
  lemma WirePathLacksSlash(path: string)
    ensures Lacks(WirePath(path), '/')
  {
    var parts := Split(TrimStart(path, '/'), '/');
    PartsLack(TrimStart(path, '/'), '/', '/');
    forall i | 0 <= i < |parts| ensures Lacks(WireComponents(parts)[i], '/') {
      WireComponentLacksSlash(parts[i]);
    }
    JoinLacks(WireComponents(parts), '\\', '/');
  }

  lemma WireComponentLacksSlash(c: string)
    requires Lacks(c, '/')
    ensures Lacks(WireComponent(c), '/')
  {
    forall i | 0 <= i < |c| ensures WireChar(c[i], i == |c| - 1) != '/' {
      CharRoundTrip(c[i], i == |c| - 1);
    }
  }

  /** Decoding a path works character by character. */
  lemma {:induction false} LocalPathPointwise(wire: string)
    ensures |LocalPath(wire)| == |wire|
    ensures forall i :: 0 <= i < |wire| ==> LocalPath(wire)[i] == if wire[i] == '\\' then '/' else LocalChar(wire[i])
  {
    if wire != [] {
      var n := |wire| - 1;
      LocalPathPointwise(wire[..n]);
      LocalPathGrows(wire[..n], wire[n]);
      assert wire == wire[..n] + [wire[n]];
    }
  }

  lemma LocalPathGrows(wire: string, c: char)
    ensures LocalPath(wire + [c]) == LocalPath(wire) + [if c == '\\' then '/' else LocalChar(c)]
  {
    var init := Split(wire, '\\');
    SplitSnoc(wire, c, '\\');
    if c == '\\' {
      LocalPartAdded(init);
    } else {
      LocalPartGrown(init, c);
      JoinGrows(LocalComponents(init), LocalChar(c), '/');
    }
  }

  lemma LocalPartAdded(init: seq<string>)
    requires init != []
    ensures Join(LocalComponents(init + [[]]), '/') == Join(LocalComponents(init), '/') + ['/']
  {
    assert LocalComponents(init + [[]]) == LocalComponents(init) + [[]];
    JoinSnoc(LocalComponents(init) + [[]], '/');
    assert (LocalComponents(init) + [[]])[..|init|] == LocalComponents(init);
  }

  lemma LocalPartGrown(init: seq<string>, c: char)
    requires init != []
    ensures var m := |init| - 1;
            LocalComponents(init[..m] + [init[m] + [c]])
            == LocalComponents(init)[..m] + [LocalComponents(init)[m] + [LocalChar(c)]]
  {
    var m := |init| - 1;
    assert Decoded(init[m] + [c]) == Decoded(init[m]) + [LocalChar(c)];
  }

  /** A path with no `/` and no leading `\`, part by part. */
  lemma WireTripByComponents(wire: string)
    requires Lacks(wire, '/') && (wire == [] || wire[0] != '\\')
    ensures WirePath(LocalPath(wire)) == Join(WireComponents(LocalComponents(Split(wire, '\\'))), '\\')
  {
    var parts := Split(wire, '\\');
    PartsLack(wire, '\\', '/');
    forall i | 0 <= i < |parts| ensures Lacks(LocalComponents(parts)[i], '/') {
      DecodedLacksSlash(parts[i]);
    }
    SplitAfterJoin(LocalComponents(parts), '/');
    LocalPathPointwise(wire);
    if wire != [] {
      WireCharRoundTrip(wire[0], false);
    }
    TrimStartTakesOnlyThat(LocalPath(wire), '/');
  }

  lemma AllReturnExactly(wire: string)
    ensures Join(WireComponents(LocalComponents(Split(wire, '\\'))), '\\') == wire <==> AllReturn(Split(wire, '\\'))
  {
    var parts := Split(wire, '\\');
    var back := WireComponents(LocalComponents(parts));
    JoinAfterSplit(wire, '\\');
    forall i | 0 <= i < |parts| ensures |back[i]| == |parts[i]| && (back[i] == parts[i] <==> Returns(parts[i])) {
      WireComponentRoundTrip(parts[i]);
    }
    JoinsAgree(back, parts, '\\');
    assert back == parts <==> forall i :: 0 <= i < |parts| ==> back[i] == parts[i];
  }

  /**
  A wire path comes back from decoding and encoding exactly when it holds no `/`, does not start
  with a separator, and each component is relative as it stands, or canonical and not the mapped
  form of a relative name.
  */
  lemma WirePathRoundTrip(wire: string)
    ensures WirePath(LocalPath(wire)) == wire
            <==> Lacks(wire, '/') && (wire == [] || wire[0] != '\\') && AllReturn(Split(wire, '\\'))
  {
    if !Lacks(wire, '/') {
      WirePathLacksSlash(LocalPath(wire));
    } else if wire != [] && wire[0] == '\\' {
      LeadingSeparatorIsLost(wire);
    } else {
      WireTripByComponents(wire);
      AllReturnExactly(wire);
    }
  }

  lemma LeadingSeparatorIsLost(wire: string)
    requires wire != [] && wire[0] == '\\'
    ensures |WirePath(LocalPath(wire))| < |wire|
  {
    LocalPathPointwise(wire);
    TrimStartTakesOnlyThat(LocalPath(wire), '/');
    WirePathLength(LocalPath(wire));
  }

  /** The length of a join does not depend on the separator. */
  lemma {:induction false} JoinLength(xs: seq<string>, ys: seq<string>, a: char, b: char)
    requires |xs| == |ys| && forall i :: 0 <= i < |xs| ==> |xs[i]| == |ys[i]|
    ensures |Join(xs, a)| == |Join(ys, b)|
  {
    var n := |xs| - 1;
    if n > 0 {
      JoinLength(xs[..n], ys[..n], a, b);
    }
  }

  lemma WirePathLength(path: string)
    ensures |WirePath(path)| == |TrimStart(path, '/')|
  {
    var parts := Split(TrimStart(path, '/'), '/');
    forall i | 0 <= i < |parts| ensures |WireComponents(parts)[i]| == |parts[i]| {
      ComponentRoundTrip(parts[i]);
    }
    JoinLength(WireComponents(parts), parts, '\\', '/');
    JoinAfterSplit(TrimStart(path, '/'), '/');
  }

  lemma ParentPassesThrough(path: string)
    requires path == ".."
    ensures WirePath(path) == path
  {
    TrimStartTakesOnlyThat(path, '/');
    SplitWhole(path, '/');
    assert WireComponents([path]) == [path];
  }

  lemma MarkedPeriodIsCanonical(name: string)
    requires |name| == 2 && name[0] == '.' && name[1] == WIRE_TRAILING_PERIOD
    ensures Canonical(name)
  {
  }

  lemma MarkedPeriodDecodes(name: string)
    requires |name| == 2 && name[0] == '.' && name[1] == WIRE_TRAILING_PERIOD
    ensures LocalPath(name) == ".."
  {
    LocalPathPointwise(name);
  }

  /**
  A period followed by the mark of a trailing period is a legal wire name and round-trips as one.
  As a path it decodes to the parent directory, and that is what is sent back.
  */
  lemma MarkedPeriodTurnsIntoParent(name: string)
    requires |name| == 2 && name[0] == '.' && name[1] == WIRE_TRAILING_PERIOD
    ensures Encoded(Decoded(name)) == name && Canonical(name)
    ensures LocalPath(name) == ".." && WirePath(LocalPath(name)) == ".." != name
  {
    MarkedPeriodIsCanonical(name);
    WireNameRoundTrip(name);
    MarkedPeriodDecodes(name);
    ParentPassesThrough(LocalPath(name));
  }

  /** So no two such paths share a wire form. */
  lemma WirePathIsInjective(p: string, q: string)
    requires Unmapped(p) && (p == [] || p[0] != '/') && Unmapped(q) && (q == [] || q[0] != '/')
    requires WirePath(p) == WirePath(q)
    ensures p == q
  {
    PathRoundTrip(p);
    PathRoundTrip(q);
  }

  /** Every component on the wire is one SMB2 accepts, or one of the relative `.` and `..`. */
  lemma WirePathIsSafe(path: string, i: nat)
    requires i < |Split(WirePath(path), '\\')|
    ensures var c := Split(WirePath(path), '\\')[i];
            c == "." || c == ".." || WireSafe(c)
  {
    var parts := Split(TrimStart(path, '/'), '/');
    var wired := WireComponents(parts);
    forall k | 0 <= k < |wired| ensures Lacks(wired[k], '\\') {
      ComponentRoundTrip(parts[k]);
    }
    SplitAfterJoin(wired, '\\');
    ComponentRoundTrip(parts[i]);
  }
}
