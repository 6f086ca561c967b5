/** Derivation paths of portal/identity/mnemonic.go. */
module DerivationPath {
  import opened Identity
  import opened Hostnames

  /** The first hardened index. */
  const HARDENED := 0x8000_0000
  const MAX_UINT32 := 0xFFFF_FFFF

  const EVM_ROOT: seq<nat> := [HARDENED + 44, HARDENED + 60, HARDENED, 0]

  predicate PathOk(path: seq<nat>) { forall i :: 0 <= i < |path| ==> path[i] <= MAX_UINT32 }

  /** strings.Split(s, "/"). */
  function Split(s: string): (r: seq<string>)
    ensures r != []
  {
    if s == [] then [[]]
    else if s[0] == '/' then [[]] + Split(s[1..])
    else var r := Split(s[1..]); [[s[0]] + r[0]] + r[1..]
  }

  // ---------------------------------------------------------------- strconv.ParseUint(s, 0, 32)

  function DigitOf(c: char): Option<nat> {
    if '0' <= c <= '9' then Some((c - '0') as nat)
    else if 'a' <= LowerChar(c) <= 'z' then Some((LowerChar(c) - 'a') as nat + 10)
    else None
  }

  /** The number the digits spell, underscores skipped. */
  function Value(s: string, base: nat): Option<nat> {
    if s == [] then Some(0)
    else
      var n := |s| - 1;
      match Value(s[..n], base)
      case None => None
      case Some(v) => if s[n] == '_' then Some(v) else Append(v, DigitOf(s[n]), base)
  }

  /** One digit more, within 32 bits. */
  function Append(v: nat, d: Option<nat>, base: nat): Option<nat> {
    if d.Some? && d.value < base && v * base + d.value <= MAX_UINT32 then Some(v * base + d.value) else None
  }

  predicate BasePrefix(s: string) { |s| >= 2 && s[0] == '0' && LowerChar(s[1]) in "box" }

  /** What underscoreOK has seen last, having read the first n characters. */
  datatype Seen = Start | Digit | Underscore | Other | Refused

  function UnderscoreScan(s: string, n: nat): Seen
    requires n <= |s|
  {
    var from := if BasePrefix(s) then 2 else 0;
    if n <= from then if from == 2 then Digit else Start
    else
      var c, seen := s[n - 1], UnderscoreScan(s, n - 1);
      if seen == Refused then Refused
      else if '0' <= c <= '9' || (from == 2 && LowerChar(s[1]) == 'x' && 'a' <= LowerChar(c) <= 'f') then Digit
      else if c == '_' then if seen == Digit then Underscore else Refused
      else if seen == Underscore then Refused
      else Other
  }

  /** underscoreOK: every underscore stands between digits, or after a prefix. A
      sign never gets that far. */
  predicate UnderscoreOK(s: string) { UnderscoreScan(s, |s|) != Refused && UnderscoreScan(s, |s|) != Underscore }

  function BaseOf(s: string): (nat, string) {
    if s != [] && s[0] == '0' then
      if |s| >= 3 && LowerChar(s[1]) == 'b' then (2, s[2..])
      else if |s| >= 3 && LowerChar(s[1]) == 'o' then (8, s[2..])
      else if |s| >= 3 && LowerChar(s[1]) == 'x' then (16, s[2..])
      else (8, s[1..])
    else (10, s)
  }

  function ParseUint(s: string): Option<nat> {
    if s == [] then None
    else
      var (base, digits) := BaseOf(s);
      var v := Value(digits, base);
      if v.Some? && '_' in digits && !UnderscoreOK(s) then None else v
  }

  lemma {:induction false} ValueIsSmall(s: string, base: nat)
    ensures Value(s, base).Some? ==> Value(s, base).value <= MAX_UINT32
  {
    if s != [] {
      ValueIsSmall(s[..|s| - 1], base);
    }
  }

  // ---------------------------------------------------------------- parsing

  function ParseComponent(raw: string): Option<nat> {
    var c := TrimSpace(raw);
    var hardened := c != [] && c[|c| - 1] == '\'';
    match ParseUint(if hardened then TrimSpace(c[..|c| - 1]) else c)
    case None => None
    case Some(v) => if !hardened then Some(v) else if v >= HARDENED then None else Some(v + HARDENED)
  }

  /** Every component read, or nothing. */
  function ReadAll(cs: seq<string>, read: string -> Option<nat>): Option<seq<nat>> {
    if cs == [] then Some([])
    else
      var before, v := ReadAll(cs[..|cs| - 1], read), read(cs[|cs| - 1]);
      if before.Some? && v.Some? then Some(before.value + [v.value]) else None
  }

  function Prefixed(root: seq<nat>, rest: Option<seq<nat>>): Option<seq<nat>> {
    if rest.Some? then Some(root + rest.value) else None
  }

  function Parse(raw: string): Option<seq<nat>> {
    var cs := Split(raw);
    var first := TrimSpace(cs[0]);
    if first == "" then None
    else if first == "m" then if |cs| == 1 then None else ReadAll(cs[1..], ParseComponent)
    else Prefixed(EVM_ROOT, ReadAll(cs, ParseComponent))
  }

  lemma ReadAppends(cs: seq<string>, c: string, read: string -> Option<nat>)
    ensures ReadAll(cs + [c], read) ==
            if ReadAll(cs, read).Some? && read(c).Some? then Some(ReadAll(cs, read).value + [read(c).value]) else None
  {
    assert (cs + [c])[..|cs|] == cs;
  }

  lemma {:induction false} StaysRefused(cs: seq<string>, i: nat, read: string -> Option<nat>)
    requires i < |cs| && read(cs[i]).None?
    ensures ReadAll(cs, read).None?
    decreases |cs|
  {
    if i < |cs| - 1 {
      StaysRefused(cs[..|cs| - 1], i, read);
    }
  }

  method ReadComponent(raw: string) returns (r: Option<nat>)
    ensures r == ParseComponent(raw)
  {
    var c := TrimSpace(raw);
    var hardened := c != [] && c[|c| - 1] == '\'';
    if hardened {
      c := TrimSpace(c[..|c| - 1]);
    }
    r := ParseUint(c);
    if r.Some? && hardened {
      if r.value >= HARDENED {
        return None;
      }
      r := Some(r.value + HARDENED);
    }
  }

  lemma ReadOneMore(cs: seq<string>, i: nat, values: seq<nat>, v: nat, read: string -> Option<nat>)
    requires i < |cs| && ReadAll(cs[..i], read) == Some(values) && read(cs[i]) == Some(v)
    ensures ReadAll(cs[..i + 1], read) == Some(values + [v])
  {
    assert cs[..i + 1] == cs[..i] + [cs[i]];
    ReadAppends(cs[..i], cs[i], read);
  }

  /** The loop over the components. */
  method ReadComponents(components: seq<string>) returns (path: Option<seq<nat>>)
    ensures path == ReadAll(components, ParseComponent)
  {
    ghost var read := ParseComponent;
    var values: seq<nat> := [];
    for i := 0 to |components|
      invariant ReadAll(components[..i], read) == Some(values)
    {
      var v := ReadComponent(components[i]);
      assert v == read(components[i]);
      if v.None? {
        StaysRefused(components, i, read);
        return None;
      }
      ReadOneMore(components, i, values, v.value, read);
      values := values + [v.value];
    }
    assert components[..|components|] == components;
    path := Some(values);
  }

  /** parseDerivationPath. */
  method ParseDerivationPath(raw: string) returns (path: Option<seq<nat>>)
    ensures path == Parse(raw)
  {
    var components := Split(raw);
    var root: seq<nat> := [];
    var first := TrimSpace(components[0]);
    if first == "" {
      return None;
    } else if first == "m" {
      components := components[1..];
    } else {
      root := EVM_ROOT;
    }
    if |components| == 0 {
      return None;
    }
    path := ReadComponents(components);
    if path.Some? {
      assert [] + path.value == path.value;
      path := Some(root + path.value);
    }
  }

  // ---------------------------------------------------------------- printing

  function Decimal(n: nat): (s: string)
    ensures s != []
  {
    if n < 10 then [n as char + '0'] else Decimal(n / 10) + [(n % 10) as char + '0']
  }

  function Component(c: nat): string {
    if c >= HARDENED then Decimal(c - HARDENED) + "'" else Decimal(c)
  }

  /** derivationPath.String. */
  function Text(path: seq<nat>): string {
    if path == [] then "m" else Text(path[..|path| - 1]) + "/" + Component(path[|path| - 1])
  }

  method Print(path: seq<nat>) returns (builder: string)
    ensures builder == Text(path)
  {
    builder := "m";
    for i := 0 to |path|
      invariant builder == Text(path[..i])
    {
      assert path[..i + 1][..i] == path[..i];
      ghost var before := builder;
      builder := builder + "/";
      var component := path[i];
      var hardened := component >= HARDENED;
      if hardened {
        component := component - HARDENED;
      }
      builder := builder + Decimal(component);
      if hardened {
        builder := builder + "'";
      }
      assert builder == before + "/" + Component(path[i]);
    }
    assert path[..|path|] == path;
  }

  // ---------------------------------------------------------------- round trip

  ghost predicate AllDigits(s: string) { forall i :: 0 <= i < |s| ==> '0' <= s[i] <= '9' }

  lemma {:induction false} DecimalShape(n: nat)
    ensures AllDigits(Decimal(n)) && (n > 0 ==> Decimal(n)[0] != '0')
  {
    if n >= 10 {
      DecimalShape(n / 10);
    }
  }

  lemma {:induction false} DecimalValue(n: nat)
    requires n <= MAX_UINT32
    ensures Value(Decimal(n), 10) == Some(n)
  {
    if n >= 10 {
      DecimalValue(n / 10);
      assert Decimal(n)[..|Decimal(n)| - 1] == Decimal(n / 10);
    } else {
      assert Decimal(n)[..0] == [];
      assert Value(Decimal(n)[..0], 10) == Some(0);
    }
  }

  lemma ParseDecimal(n: nat)
    requires n <= MAX_UINT32
    ensures ParseUint(Decimal(n)) == Some(n)
  {
    DecimalShape(n);
    DecimalValue(n);
    if n == 0 {
      assert Decimal(0)[1..] == [];
    }
  }

  lemma TrimNothing(s: string)
    requires s != [] && !WhiteSpace(s[0]) && !WhiteSpace(s[|s| - 1])
    ensures TrimSpace(s) == s
  {
  }

  /** A printed component reads back as itself; hardened indices are those from
      2^31 on, written by their offset with an apostrophe. */
  lemma ParsePrintedComponent(c: nat)
    requires c <= MAX_UINT32
    ensures ParseComponent(Component(c)) == Some(c)
  {
    var n := if c >= HARDENED then c - HARDENED else c;
    var s := Decimal(n);
    DecimalShape(n);
    ParseDecimal(n);
    TrimNothing(s);
    if c >= HARDENED {
      TrimNothing(s + "'");
      assert (s + "'")[..|s + "'"| - 1] == s;
    }
  }

  lemma ComponentHasNoSlash(c: nat)
    ensures '/' !in Component(c)
  {
    DecimalShape(if c >= HARDENED then c - HARDENED else c);
  }

  lemma {:induction false} SplitWhole(s: string)
    requires '/' !in s
    ensures Split(s) == [s]
  {
    if s != [] {
      SplitWhole(s[1..]);
      assert s == [s[0]] + s[1..];
    }
  }

  lemma {:induction false} SplitAppends(a: string, c: string)
    requires '/' !in c
    ensures Split(a + "/" + c) == Split(a) + [c]
  {
    if a == [] {
      assert a + "/" + c == "/" + c && ("/" + c)[1..] == c;
      SplitWhole(c);
    } else {
      assert (a + "/" + c)[1..] == a[1..] + "/" + c;
      SplitAppends(a[1..], c);
    }
  }

  /** The components of a printed path. */
  lemma {:induction false} SplitText(path: seq<nat>)
    ensures |Split(Text(path))| == |path| + 1 && Split(Text(path))[0] == "m"
    ensures forall i :: 0 <= i < |path| ==> Split(Text(path))[i + 1] == Component(path[i])
  {
    if path == [] {
      SplitWhole("m");
    } else {
      var n := |path| - 1;
      SplitText(path[..n]);
      ComponentHasNoSlash(path[n]);
      SplitAppends(Text(path[..n]), Component(path[n]));
      var before := Split(Text(path[..n]));
      assert Split(Text(path)) == before + [Component(path[n])];
      forall i | 0 <= i < |path| ensures Split(Text(path))[i + 1] == Component(path[i]) {
        assert i < n ==> before[i + 1] == Component(path[..n][i]);
      }
    }
  }

  lemma {:induction false} ReadBack(cs: seq<string>, path: seq<nat>, read: string -> Option<nat>)
    requires |cs| == |path| && forall i :: 0 <= i < |cs| ==> read(cs[i]) == Some(path[i])
    ensures ReadAll(cs, read) == Some(path)
  {
    if cs != [] {
      var n := |cs| - 1;
      ReadBack(cs[..n], path[..n], read);
      assert path == path[..n] + [path[n]];
    }
  }

  lemma ReadText(path: seq<nat>)
    requires PathOk(path)
    ensures ReadAll(Split(Text(path))[1..], ParseComponent) == Some(path)
  {
    SplitText(path);
    var cs := Split(Text(path))[1..];
    forall i | 0 <= i < |cs| ensures ParseComponent(cs[i]) == Some(path[i]) {
      assert cs[i] == Split(Text(path))[i + 1];
      ParsePrintedComponent(path[i]);
    }
    ReadBack(cs, path, ParseComponent);
  }

  /** Printing and parsing is the identity on every non-empty path of 32-bit
      components; the empty path prints as "m", which is refused. */
  lemma ParseOfText(path: seq<nat>)
    requires PathOk(path)
    ensures Parse(Text(path)) == if path == [] then None else Some(path)
  {
    SplitText(path);
    ReadText(path);
    TrimNothing("m");
  }

  lemma {:induction false} ComponentsResult(cs: seq<string>, read: string -> Option<nat>)
    requires forall c :: read(c).Some? ==> read(c).value <= MAX_UINT32
    ensures var r := ReadAll(cs, read); r.Some? ==> PathOk(r.value) && |r.value| == |cs|
  {
    if cs != [] {
      ComponentsResult(cs[..|cs| - 1], read);
    }
  }

  lemma ComponentResult(raw: string)
    ensures ParseComponent(raw).Some? ==> ParseComponent(raw).value <= MAX_UINT32
  {
    var c := TrimSpace(raw);
    var hardened := c != [] && c[|c| - 1] == '\'';
    var u := if hardened then TrimSpace(c[..|c| - 1]) else c;
    ValueIsSmall(BaseOf(u).1, BaseOf(u).0);
  }

  /** Whatever is accepted, in any base or spacing, absolute or relative, prints
      to a text that means the same path, and printing that again changes
      nothing. */
  lemma TextIsNormalForm(raw: string)
    requires Parse(raw).Some?
    ensures var path := Parse(raw).value;
            path != [] && PathOk(path) && Parse(Text(path)) == Some(path) && Text(Parse(Text(path)).value) == Text(path)
  {
    forall c ensures ParseComponent(c).Some? ==> ParseComponent(c).value <= MAX_UINT32 {
      ComponentResult(c);
    }
    ComponentsResult(Split(raw), ParseComponent);
    ComponentsResult(Split(raw)[1..], ParseComponent);
    ParseOfText(Parse(raw).value);
  }
}
