/** Friendly and canonical lease hostnames of utils/utils.go, for names in plain
    ASCII. The hash of a long name is a parameter. */
module Hostnames {

  datatype Result = Ok(value: string) | Err

  const ADDRESS_LENGTH := 40
  const LABEL_MAX := 63
  const NAME_MAX := 22
  const HASH_LENGTH := 21

  // ---------------------------------------------------------------- strings

  function LowerChar(c: char): char { if 'A' <= c <= 'Z' then c - 'A' + 'a' else c }

  function Lower(s: string): (r: string)
    ensures |r| == |s| && forall i :: 0 <= i < |s| ==> r[i] == LowerChar(s[i])
  {
    seq(|s|, i requires 0 <= i < |s| => LowerChar(s[i]))
  }

  predicate IsSpace(c: char) { c == ' ' || '\t' <= c <= '\r' }
  predicate IsHyphen(c: char) { c == '-' }

  function TrimLeft(s: string, drop: char -> bool): string {
    if s != [] && drop(s[0]) then TrimLeft(s[1..], drop) else s
  }

  function TrimRight(s: string, drop: char -> bool): string {
    if s != [] && drop(s[|s| - 1]) then TrimRight(s[..|s| - 1], drop) else s
  }

  function Trim(s: string, drop: char -> bool): string { TrimRight(TrimLeft(s, drop), drop) }

  /** unicode.IsSpace. */
  predicate WhiteSpace(c: char) {
    || IsSpace(c) || c == '\U{85}' || c == '\U{A0}' || c == '\U{1680}' || '\U{2000}' <= c <= '\U{200A}'
    || c == '\U{2028}' || c == '\U{2029}' || c == '\U{202F}' || c == '\U{205F}' || c == '\U{3000}'
  }

  function TrimSpace(s: string): string { Trim(s, WhiteSpace) }

  /** The text before and after the first occurrence of c, as strings.Cut. */
  function Cut(s: string, c: char): (string, string, bool) {
    if s == [] then ([], [], false)
    else if s[0] == c then ([], s[1..], true)
    else var (a, b, ok) := Cut(s[1..], c); ([s[0]] + a, b, ok)
  }

  // ---------------------------------------------------------------- labels

  predicate LetterOrDigit(c: char) { 'a' <= c <= 'z' || '0' <= c <= '9' }
  predicate PlainChar(c: char) { LetterOrDigit(c) || c == '-' }
  predicate Plain(s: string) { forall i :: 0 <= i < |s| ==> PlainChar(s[i]) }
  ghost predicate Ascii(s: string) { forall i :: 0 <= i < |s| ==> s[i] < 128 as char }

  /** Runs of other characters become one hyphen. */
  function Collapse(s: string, previousHyphen: bool): (r: string)
    ensures Plain(r)
  {
    if s == [] then []
    else if PlainChar(s[0]) then [s[0]] + Collapse(s[1..], false)
    else if previousHyphen then Collapse(s[1..], true)
    else ['-'] + Collapse(s[1..], true)
  }

  /** The loop of sanitizeDNSLabelInput. */
  method CollapseLoop(input: string) returns (b: string)
    ensures b == Collapse(input, false)
  {
    b := "";
    var previousHyphen := false;
    var i := 0;
    while i < |input|
      invariant i <= |input|
      invariant b + Collapse(input[i..], previousHyphen) == Collapse(input, false)
    {
      ghost var rest := input[i..];
      assert rest[0] == input[i] && rest[1..] == input[i + 1..];
      if input[i] == '-' || LetterOrDigit(input[i]) {
        b := b + [input[i]];
        previousHyphen := false;
      } else if !previousHyphen {
        b := b + ['-'];
        previousHyphen := true;
      }
      i := i + 1;
    }
  }

  function Sanitize(raw: string): string {
    Trim(Collapse(Trim(Lower(raw), IsSpace), false), IsHyphen)
  }

  /** NormalizeDNSLabel; an ASCII input is always plain once sanitized, so the
      conversion of international names never runs. */
  function NormalizeLabel(raw: string): Result
    requires Ascii(raw)
  {
    var text := Sanitize(raw);
    if text == "" then Err
    else if |text| > LABEL_MAX then Err
    else if text[0] == '-' || text[|text| - 1] == '-' then Err
    else Ok(text)
  }

  /** What an accepted label looks like. */
  predicate IsLabel(s: string) {
    0 < |s| <= LABEL_MAX && Plain(s) && s[0] != '-' && s[|s| - 1] != '-'
  }

  predicate HexDigit(c: char) { '0' <= c <= '9' || 'a' <= c <= 'f' || 'A' <= c <= 'F' }

  predicate IsHexAddress(s: string) {
    |s| == ADDRESS_LENGTH && forall i :: 0 <= i < |s| ==> HexDigit(s[i])
  }

  /** hasCanonicalShape. */
  predicate CanonicalShape(text: string) {
    IsHexAddress(text) ||
    var tail := text[if |text| > 41 then |text| - 41 else 0..];
    var (prefix, address, ok) := Cut(tail, '-');
    ok && prefix == "" && IsHexAddress(address)
  }

  function NormalizeServiceName(raw: string): Result
    requires Ascii(raw)
  {
    match NormalizeLabel(raw)
    case Err => Err
    case Ok(text) => if CanonicalShape(text) then Err else Ok(text)
  }

  // ---------------------------------------------------------------- hostnames

  /** `root` is the relay's normalized root host. */
  function LeaseHostname(name: string, root: string): Result
    requires Ascii(name)
  {
    match NormalizeLabel(name)
    case Err => Err
    case Ok(text) => if root == "" then Err else Ok(text + "." + root)
  }

  function TrimHexPrefix(s: string): string {
    if |s| >= 2 && s[0] == '0' && (s[1] == 'x' || s[1] == 'X') then s[2..] else s
  }

  function NormalizeAddress(raw: string): string {
    Lower(TrimHexPrefix(Trim(raw, IsSpace)))
  }

  /** The label CanonicalLeaseHostname builds before it becomes a hostname. */
  function CanonicalLabel(hash: string -> string, text: string, address: string): string {
    if text == "" then address
    else if |text| <= NAME_MAX then text + "-" + address
    else hash(text) + "--" + address
  }

  /** Twenty-one characters of the lowercase base32 alphabet. */
  ghost predicate HashOk(hash: string -> string) {
    forall s :: |hash(s)| == HASH_LENGTH && forall i :: 0 <= i < |hash(s)| ==>
      'a' <= hash(s)[i] <= 'z' || '2' <= hash(s)[i] <= '7'
  }

  function CanonicalHostname(hash: string -> string, name: string, address: string, root: string): Result
    requires Ascii(name) && HashOk(hash)
  {
    var a := NormalizeAddress(address);
    if !IsHexAddress(a) then Err
    else
      var trimmed := Trim(name, IsSpace);
      TrimKeepsAscii(name);
      if trimmed == "" then
        HexIsLabel(a);
        LeaseHostname(a, root)
      else
        match NormalizeServiceName(trimmed)
        case Err => Err
        case Ok(text) =>
          NormalizedIsLabel(trimmed);
          CanonicalIsLabel(hash, text, a);
          LeaseHostname(CanonicalLabel(hash, text, a), root)
  }

  function StripDot(s: string): string {
    if s != [] && s[|s| - 1] == '.' then s[..|s| - 1] else s
  }

  function NormalizeHost(host: string): string { StripDot(Trim(Lower(host), IsSpace)) }

  /** One colon and no brackets: net.SplitHostPort finds a port after it. */
  predicate Ported(s: string) {
    var (_, port, ok) := Cut(s, ':');
    ok && ':' !in port && '[' !in s && ']' !in s
  }

  /** Drops the port that net.SplitHostPort finds, if it finds one. */
  function WithoutPort(s: string): string {
    if s != [] && s[0] == '[' then
      var (inside, after, ok) := Cut(s[1..], ']');
      if ok && after != [] && after[0] == ':' && ':' !in after[1..] && '[' !in s[1..] && ']' !in after
      then inside else s
    else if Ported(s) then Cut(s, ':').0
    else s
  }

  /** ExtractCanonicalHostnameAddress. */
  function ExtractAddress(hostname: string): Result {
    var (text, rest, ok) := Cut(NormalizeHost(WithoutPort(Trim(hostname, IsSpace))), '.');
    if !ok || text == "" || rest == "" || !CanonicalShape(text) then Err
    else
      ShapeIsLong(text);
      Ok("0x" + Lower(text[|text| - ADDRESS_LENGTH..]))
  }

  // ---------------------------------------------------------------- lemmas about the parts

  lemma ShapeIsLong(text: string)
    requires CanonicalShape(text)
    ensures |text| >= ADDRESS_LENGTH
  {
    if !IsHexAddress(text) {
      CutSplits(text[if |text| > 41 then |text| - 41 else 0..], '-');
    }
  }

  lemma {:induction false} CutSplits(s: string, c: char)
    ensures var (a, b, ok) := Cut(s, c);
            && c !in a
            && (ok ==> s == a + [c] + b) && (!ok ==> s == a && b == [])
    ensures Cut(s, c).2 <==> c in s
  {
    if s != [] && s[0] != c {
      CutSplits(s[1..], c);
      assert s == [s[0]] + s[1..];
    }
  }

  lemma {:induction false} CutAt(a: string, c: char, b: string)
    requires c !in a
    ensures Cut(a + [c] + b, c) == (a, b, true)
  {
    if a != [] {
      CutAt(a[1..], c, b);
      assert (a + [c] + b)[1..] == a[1..] + [c] + b;
      assert [a[0]] + a[1..] == a;
    } else {
      assert ([c] + b)[1..] == b;
    }
  }

  lemma {:induction false} TrimLeftResult(s: string, drop: char -> bool)
    ensures var r := TrimLeft(s, drop); (r == [] || !drop(r[0])) && |r| <= |s| && r == s[|s| - |r|..]
  {
    if s != [] && drop(s[0]) {
      TrimLeftResult(s[1..], drop);
    }
  }

  lemma {:induction false} TrimRightResult(s: string, drop: char -> bool)
    ensures var r := TrimRight(s, drop); (r == [] || !drop(r[|r| - 1])) && r <= s
  {
    if s != [] && drop(s[|s| - 1]) {
      TrimRightResult(s[..|s| - 1], drop);
    }
  }

  /** Trimming leaves nothing to drop at either end. */
  lemma TrimResult(s: string, drop: char -> bool)
    ensures var r := Trim(s, drop); r == [] || (!drop(r[0]) && !drop(r[|r| - 1]))
    ensures forall c :: c in Trim(s, drop) ==> c in s
  {
    TrimLeftResult(s, drop);
    TrimRightResult(TrimLeft(s, drop), drop);
  }

  lemma TrimKeepsAscii(s: string)
    requires Ascii(s)
    ensures Ascii(Trim(s, IsSpace))
  {
    TrimResult(s, IsSpace);
    var r := Trim(s, IsSpace);
    assert forall i :: 0 <= i < |r| ==> r[i] in r;
  }

  lemma TrimIdentity(s: string, drop: char -> bool)
    requires s == [] || (!drop(s[0]) && !drop(s[|s| - 1]))
    ensures Trim(s, drop) == s
  {
  }

  lemma {:induction false} CollapseIdentity(s: string)
    requires Plain(s)
    ensures forall b :: Collapse(s, b) == s
  {
    if s != [] {
      CollapseIdentity(s[1..]);
      assert s == [s[0]] + s[1..];
    }
  }

  /** A label is its own normal form. */
  lemma LabelIsNormal(s: string)
    requires IsLabel(s)
    ensures Ascii(s) && NormalizeLabel(s) == Ok(s)
  {
    assert Lower(s) == s;
    TrimIdentity(s, IsSpace);
    CollapseIdentity(s);
    TrimIdentity(s, IsHyphen);
  }

  /** Normalization accepts nothing but labels. */
  lemma NormalizedIsLabel(raw: string)
    requires Ascii(raw)
    ensures NormalizeLabel(raw).Ok? ==> IsLabel(NormalizeLabel(raw).value)
  {
    var c := Collapse(Trim(Lower(raw), IsSpace), false);
    TrimResult(c, IsHyphen);
    var r := Sanitize(raw);
    forall i | 0 <= i < |r| ensures PlainChar(r[i]) {
      assert r[i] in r;
      assert r[i] in c;
    }
  }

  lemma HexIsLabel(a: string)
    requires IsHexAddress(a) && Lower(a) == a
    ensures IsLabel(a) && Ascii(a)
  {
    forall i | 0 <= i < |a| ensures LetterOrDigit(a[i]) {
      assert Lower(a)[i] == a[i];
    }
  }

  // ---------------------------------------------------------------- the canonical label

  ghost predicate ValidAddress(a: string) { IsHexAddress(a) && Lower(a) == a }

  /** A name as it enters a canonical label: accepted, or absent. */
  ghost predicate NamePart(name: string) { name == "" || (IsLabel(name) && !CanonicalShape(name)) }

  /** Every canonical label is a DNS label of at most 63 octets. */
  lemma CanonicalIsLabel(hash: string -> string, name: string, address: string)
    requires HashOk(hash) && IsHexAddress(address) && Lower(address) == address && IsLabel(name)
    ensures IsLabel(CanonicalLabel(hash, name, address)) && Ascii(CanonicalLabel(hash, name, address))
  {
    HexIsLabel(address);
  }

  /** A canonical label ends in its address, alone or after a hyphen. */
  lemma CanonicalEndsInAddress(hash: string -> string, name: string, address: string)
    requires HashOk(hash) && ValidAddress(address)
    ensures var c := CanonicalLabel(hash, name, address);
            && |c| >= ADDRESS_LENGTH && c[|c| - ADDRESS_LENGTH..] == address
            && (name == "" <==> |c| == ADDRESS_LENGTH)
            && (name != "" ==> |c| >= 42 && c[|c| - 41] == '-')
  {
  }

  lemma HyphenThenAddress(tail: string, address: string)
    requires tail == "-" + address && IsHexAddress(address)
    ensures Cut(tail, '-') == ("", address, true)
  {
    assert tail[1..] == address;
  }

  /** Exactly the labels that end in a hex address, alone or after a hyphen,
      have the canonical shape. */
  lemma ShapeCharacterized(s: string)
    ensures CanonicalShape(s) <==>
            IsHexAddress(s) || (|s| >= 41 && s[|s| - 41] == '-' && IsHexAddress(s[|s| - 40..]))
  {
    var tail := s[if |s| > 41 then |s| - 41 else 0..];
    CutSplits(tail, '-');
    if |s| >= 41 && s[|s| - 41] == '-' && IsHexAddress(s[|s| - 40..]) {
      assert tail == "-" + s[|s| - 40..];
      HyphenThenAddress(tail, s[|s| - 40..]);
    }
    var (prefix, address, ok) := Cut(tail, '-');
    if ok && prefix == "" && IsHexAddress(address) {
      assert tail == "-" + address;
      assert address == s[|s| - 40..];
    }
  }

  lemma CanonicalHasShape(hash: string -> string, name: string, address: string)
    requires HashOk(hash) && ValidAddress(address)
    ensures CanonicalShape(CanonicalLabel(hash, name, address))
  {
    CanonicalEndsInAddress(hash, name, address);
    ShapeCharacterized(CanonicalLabel(hash, name, address));
  }

  /** The three forms never coincide: labels built from names of different
      forms differ, whatever the addresses. */
  lemma FormsNeverCoincide(hash: string -> string, n1: string, a1: string, n2: string, a2: string)
    requires HashOk(hash) && ValidAddress(a1) && ValidAddress(a2) && NamePart(n1) && NamePart(n2)
    requires CanonicalLabel(hash, n1, a1) == CanonicalLabel(hash, n2, a2)
    ensures a1 == a2
    ensures n1 == "" <==> n2 == ""
    ensures |n1| > NAME_MAX <==> |n2| > NAME_MAX
  {
    CanonicalEndsInAddress(hash, n1, a1);
    CanonicalEndsInAddress(hash, n2, a2);
    if n1 != "" {
      BeforeAddress(hash, n1, a1);
      BeforeAddress(hash, n2, a2);
    }
  }

  /** The character before the last hyphen tells the hashed form from the short one. */
  lemma BeforeAddress(hash: string -> string, name: string, address: string)
    requires HashOk(hash) && ValidAddress(address) && NamePart(name) && name != ""
    ensures var c := CanonicalLabel(hash, name, address);
            |c| >= 42 && (c[|c| - 42] == '-' <==> |name| > NAME_MAX)
  {
    var c := CanonicalLabel(hash, name, address);
    if |name| <= NAME_MAX {
      assert c[|name| - 1] == name[|name| - 1];
    }
  }

  /** The short form determines the name and the address. */
  lemma ShortFormIsInjective(hash: string -> string, n1: string, a1: string, n2: string, a2: string)
    requires HashOk(hash) && ValidAddress(a1) && ValidAddress(a2) && NamePart(n1) && NamePart(n2)
    requires 0 < |n1| <= NAME_MAX && CanonicalLabel(hash, n1, a1) == CanonicalLabel(hash, n2, a2)
    ensures n1 == n2 && a1 == a2
  {
    FormsNeverCoincide(hash, n1, a1, n2, a2);
    var c := CanonicalLabel(hash, n1, a1);
    assert c[..|c| - 41] == n1;
    assert c[..|c| - 41] == n2;
  }

  // ---------------------------------------------------------------- the hostnames

  /** What CanonicalHostname returns, in terms of the label. */
  lemma CanonicalHostnameLabel(hash: string -> string, name: string, address: string, root: string)
    returns (part: string)
    requires Ascii(name) && HashOk(hash) && CanonicalHostname(hash, name, address, root).Ok?
    ensures NamePart(part) && ValidAddress(NormalizeAddress(address)) && root != ""
    ensures CanonicalHostname(hash, name, address, root) ==
            Ok(CanonicalLabel(hash, part, NormalizeAddress(address)) + "." + root)
  {
    var a := NormalizeAddress(address);
    LowerTwice(TrimHexPrefix(Trim(address, IsSpace)));
    if Trim(name, IsSpace) == "" {
      part := "";
      HexIsLabel(a);
      LabelIsNormal(a);
    } else {
      TrimKeepsAscii(name);
      part := NormalizeServiceName(Trim(name, IsSpace)).value;
      NormalizedIsLabel(Trim(name, IsSpace));
      CanonicalIsLabel(hash, part, a);
      LabelIsNormal(CanonicalLabel(hash, part, a));
    }
  }

  lemma LowerTwice(s: string)
    ensures Lower(Lower(s)) == Lower(s)
  {
  }

  /** A hostname root: normalized, so lowercase, without spaces after it or a
      final dot. */
  ghost predicate IsRoot(root: string) {
    && root != "" && Lower(root) == root && root[|root| - 1] != '.' && !IsSpace(root[|root| - 1])
  }

  /** The root before its port, if it has one. */
  function BeforePort(root: string): string { if Ported(root) then Cut(root, ':').0 else root }

  /** What is left of the root once the port is dropped. */
  function RootHost(root: string): string { StripDot(TrimRight(BeforePort(root), IsSpace)) }

  lemma LabelHasNoDot(s: string)
    requires IsLabel(s)
    ensures '.' !in s && ':' !in s && '[' !in s && ']' !in s && Lower(s) == s && !IsSpace(s[0])
  {
  }

  lemma {:induction false} CutAfter(p: string, s: string, c: char)
    requires c !in p
    ensures Cut(p + s, c) == (p + Cut(s, c).0, Cut(s, c).1, Cut(s, c).2)
  {
    if p == [] {
      assert p + s == s && p + Cut(s, c).0 == Cut(s, c).0;
    } else {
      CutAfter(p[1..], s, c);
      assert (p + s)[1..] == p[1..] + s;
      assert [p[0]] + (p[1..] + Cut(s, c).0) == p + Cut(s, c).0;
    }
  }

  lemma {:induction false} TrimRightAfter(p: string, s: string)
    requires p != [] && !IsSpace(p[|p| - 1])
    ensures TrimRight(p + s, IsSpace) == p + TrimRight(s, IsSpace)
  {
    if s == [] {
      assert p + s == p;
    } else if IsSpace(s[|s| - 1]) {
      TrimRightAfter(p, s[..|s| - 1]);
      assert (p + s)[..|p + s| - 1] == p + s[..|s| - 1];
    }
  }

  /** The port of a hostname is that of its root. */
  lemma PortIsTheRoots(s: string, root: string)
    requires IsLabel(s)
    ensures WithoutPort(s + "." + root) == s + "." + BeforePort(root)
  {
    LabelHasNoDot(s);
    var p, host := s + ".", s + "." + root;
    CutAfter(p, root, ':');
    assert host[0] == s[0] && s[0] in s;
    assert forall c :: c in host <==> c in p || c in root;
    assert Ported(host) <==> Ported(root);
  }

  lemma LowerAll(s: string)
    requires forall i :: 0 <= i < |s| ==> LowerChar(s[i]) == s[i]
    ensures Lower(s) == s
  {
  }

  lemma RootIsLower(s: string, root: string)
    requires IsLabel(s) && Lower(root) == root
    ensures Lower(s + "." + BeforePort(root)) == s + "." + BeforePort(root)
  {
    CutSplits(root, ':');
    var k := BeforePort(root);
    assert k <= root;
    forall i | 0 <= i < |k| ensures LowerChar(k[i]) == k[i] {
      assert Lower(root)[i] == root[i] == k[i];
    }
    LabelHasNoDot(s);
    forall i | 0 <= i < |s| ensures LowerChar(s[i]) == s[i] {
      assert Lower(s)[i] == s[i];
    }
    LowerAll(s + "." + k);
  }

  lemma NormalHost(s: string, k: string)
    requires IsLabel(s) && Lower(s + "." + k) == s + "." + k
    ensures Trim(Lower(s + "." + k), IsSpace) == s + "." + TrimRight(k, IsSpace)
  {
    LabelHasNoDot(s);
    TrimRightAfter(s + ".", k);
    assert TrimLeft(s + "." + k, IsSpace) == s + "." + k;
  }

  lemma DotIsStripped(s: string, t: string)
    ensures StripDot(s + "." + t) == if t == "" then s else s + "." + StripDot(t)
  {
    assert s + "." + "" == s + ".";
  }

  lemma CutOfLabel(s: string)
    requires '.' !in s
    ensures Cut(s, '.') == (s, "", false)
  {
    CutSplits(s, '.');
  }

  /** Reading the first label of a host back. */
  lemma FirstLabel(s: string, k: string)
    requires IsLabel(s) && Lower(s + "." + k) == s + "." + k
    ensures var t := TrimRight(k, IsSpace);
            Cut(NormalizeHost(s + "." + k), '.') == if t == "" then (s, "", false) else (s, StripDot(t), true)
  {
    var t := TrimRight(k, IsSpace);
    NormalHost(s, k);
    DotIsStripped(s, t);
    LabelHasNoDot(s);
    if t == "" {
      CutOfLabel(s);
    } else {
      CutAt(s, '.', StripDot(t));
    }
  }

  /** Reading the address back from the hostname of any label with the canonical shape. */
  lemma ExtractFromLabel(s: string, root: string)
    requires IsLabel(s) && CanonicalShape(s) && IsRoot(root)
    ensures |s| >= ADDRESS_LENGTH
    ensures ExtractAddress(s + "." + root) ==
            if RootHost(root) == "" then Err else Ok("0x" + Lower(s[|s| - ADDRESS_LENGTH..]))
  {
    LabelHasNoDot(s);
    TrimIdentity(s + "." + root, IsSpace);
    PortIsTheRoots(s, root);
    RootIsLower(s, root);
    FirstLabel(s, BeforePort(root));
    ShapeIsLong(s);
  }

  /** The address comes back from a canonical hostname exactly when the root is
      more than a port. */
  lemma AddressIsRecovered(hash: string -> string, name: string, address: string, root: string)
    requires Ascii(name) && HashOk(hash) && IsRoot(root) && CanonicalHostname(hash, name, address, root).Ok?
    ensures ExtractAddress(CanonicalHostname(hash, name, address, root).value) ==
            if RootHost(root) == "" then Err else Ok("0x" + NormalizeAddress(address))
  {
    var a := NormalizeAddress(address);
    var part := CanonicalHostnameLabel(hash, name, address, root);
    var c := CanonicalLabel(hash, part, a);
    if part == "" { HexIsLabel(a); } else { CanonicalIsLabel(hash, part, a); }
    CanonicalHasShape(hash, part, a);
    CanonicalEndsInAddress(hash, part, a);
    ExtractFromLabel(c, root);
  }

  /** A root without a colon always is. */
  lemma RootWithoutPort(root: string)
    requires IsRoot(root) && ':' !in root
    ensures RootHost(root) == root != ""
  {
    CutSplits(root, ':');
    assert BeforePort(root) == root;
    TrimRightIdentity(root);
  }

  lemma TrimRightIdentity(s: string)
    requires s == [] || !IsSpace(s[|s| - 1])
    ensures TrimRight(s, IsSpace) == s
  {
  }

  /** Under one root, no accepted service name's friendly hostname is anybody's
      canonical hostname. */
  lemma FriendlyIsNeverCanonical(hash: string -> string, friendly: string, name: string, address: string, root: string)
    requires Ascii(friendly) && Ascii(name) && HashOk(hash)
    requires NormalizeServiceName(friendly).Ok? && LeaseHostname(friendly, root).Ok?
    requires CanonicalHostname(hash, name, address, root).Ok?
    ensures LeaseHostname(friendly, root) != CanonicalHostname(hash, name, address, root)
  {
    var a := NormalizeAddress(address);
    var part := CanonicalHostnameLabel(hash, name, address, root);
    var c, f := CanonicalLabel(hash, part, a), NormalizeServiceName(friendly).value;
    CanonicalHasShape(hash, part, a);
    SameRootSameLabel(f, c, root);
  }

  lemma SameRootSameLabel(f: string, c: string, root: string)
    ensures f != c ==> f + "." + root != c + "." + root
  {
    if f + "." + root == c + "." + root {
      assert f == (f + "." + root)[..|f|] == (c + "." + root)[..|c|] == c;
    }
  }

  // ---------------------------------------------------------------- registration

  lemma {:induction false} LowerTrimLeft(s: string)
    ensures Lower(TrimLeft(s, IsSpace)) == TrimLeft(Lower(s), IsSpace)
  {
    if s != [] && IsSpace(s[0]) {
      LowerTrimLeft(s[1..]);
      assert Lower(s)[1..] == Lower(s[1..]);
    }
  }

  lemma {:induction false} LowerTrimRight(s: string)
    ensures Lower(TrimRight(s, IsSpace)) == TrimRight(Lower(s), IsSpace)
  {
    if s != [] && IsSpace(s[|s| - 1]) {
      LowerTrimRight(s[..|s| - 1]);
      assert Lower(s)[..|s| - 1] == Lower(s[..|s| - 1]);
    }
  }

  lemma LowerTrim(s: string)
    ensures Lower(Trim(s, IsSpace)) == Trim(Lower(s), IsSpace)
  {
    LowerTrimLeft(s);
    LowerTrimRight(TrimLeft(s, IsSpace));
  }

  lemma TrimTwice(s: string)
    ensures Trim(Trim(s, IsSpace), IsSpace) == Trim(s, IsSpace)
  {
    TrimResult(s, IsSpace);
    TrimIdentity(Trim(s, IsSpace), IsSpace);
  }

  /** Spaces around a name make no difference. */
  lemma TrimmedNameIsSame(name: string)
    requires Ascii(name)
    ensures Ascii(Trim(name, IsSpace)) && NormalizeLabel(Trim(name, IsSpace)) == NormalizeLabel(name)
  {
    TrimKeepsAscii(name);
    LowerTrim(name);
    TrimTwice(Lower(name));
  }

  /** The two hostnames Register computes for one identity. */
  ghost predicate Built(hash: string -> string, root: string, name: string, address: string, canonical: string,
                        hostname: string)
    requires HashOk(hash)
  {
    && Ascii(name) && CanonicalHostname(hash, name, address, root) == Ok(canonical)
    && (hostname != "" ==> name != "" && LeaseHostname(name, root) == Ok(hostname))
  }

  /** A plain label short enough to stand in front of an address. */
  predicate ShortName(name: string) { IsLabel(name) && !CanonicalShape(name) && |name| <= NAME_MAX }

  predicate LowerAddress(a: string) { IsHexAddress(a) && Lower(a) == a }

  /** What Register builds for a short plain name. */
  lemma ShortNamesAreBuilt(hash: string -> string, root: string, name: string, address: string)
    requires HashOk(hash) && root != "" && ShortName(name) && LowerAddress(address)
    ensures Built(hash, root, name, address, name + "-" + address + "." + root, name + "." + root)
  {
    LabelIsNormal(name);
    TrimIdentity(name, IsSpace);
    TrimIdentity(address, IsSpace);
    assert NormalizeAddress(address) == address;
    CanonicalIsLabel(hash, name, address);
    LabelIsNormal(CanonicalLabel(hash, name, address));
  }

  /** A name that got a canonical hostname and a friendly one is an accepted
      service name. */
  lemma BuiltNameIsAccepted(hash: string -> string, root: string, name: string, address: string, canonical: string,
                            hostname: string)
    requires HashOk(hash) && Built(hash, root, name, address, canonical, hostname) && hostname != ""
    ensures NormalizeServiceName(name).Ok?
  {
    TrimmedNameIsSame(name);
    assert Sanitize("") == "";
  }

  /** No registration's friendly hostname is any registration's canonical one. */
  lemma BuiltNamesNeverCross(hash: string -> string, root: string, n1: string, a1: string, c1: string, h1: string,
                             n2: string, a2: string, c2: string, h2: string)
    requires HashOk(hash) && Built(hash, root, n1, a1, c1, h1) && Built(hash, root, n2, a2, c2, h2) && h1 != ""
    ensures h1 != c2
  {
    BuiltNameIsAccepted(hash, root, n1, a1, c1, h1);
    FriendlyIsNeverCanonical(hash, n1, n2, a2, root);
  }
}
