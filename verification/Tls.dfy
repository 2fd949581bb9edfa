// JA3 and JA4 fingerprint texts (pkg/canary/tls/ja3.go, ja4.go). The hashes
// stay uninterpreted.

module Tls {
  import opened Options
  import opened Strings
  import opened Decimal
  import opened Sorting

  type uint16 = x: int | 0 <= x < 0x10000
  type uint8 = x: int | 0 <= x < 0x100

  datatype Hello = Hello(
    version: uint16, ciphers: seq<uint16>, extensions: seq<uint16>, curves: seq<uint16>, pointFormats: seq<uint8>,
    signatureAlgorithms: seq<uint16>, alpn: seq<string>, sni: bool)

  // ---- GREASE ----

  predicate IsGrease(v: uint16) {
    var hi, lo := v / 0x100, v % 0x100;
    hi == lo && hi % 0x10 == 0x0A
  }

  // Exactly the sixteen values reserved by section 2 of RFC 8701: 0x0A0A,
  // 0x1A1A, and so on in steps of 0x1010 through 0xFAFA.
  lemma GreaseTable(v: uint16)
    ensures IsGrease(v) <==> exists n :: 0 <= n < 16 && v == Reserved(n)
  {
    if IsGrease(v) {
      assert v == Reserved(v / 0x1000);
    }
  }

  function Reserved(n: nat): int {
    0x0A0A + 0x1010 * n
  }

  // The values that are not GREASE, in order.
  function Stripped(vs: seq<uint16>): (r: seq<uint16>)
    ensures forall i :: 0 <= i < |r| ==> !IsGrease(r[i]) && r[i] in vs
  {
    if vs == [] then []
    else
      var k := |vs| - 1;
      Stripped(vs[..k]) + if IsGrease(vs[k]) then [] else [vs[k]]
  }

  // The values reserved by section 2 of RFC 8701, written out.
  const GREASE: set<int> := {
    0x0A0A, 0x1A1A, 0x2A2A, 0x3A3A, 0x4A4A, 0x5A5A, 0x6A6A, 0x7A7A,
    0x8A8A, 0x9A9A, 0xAAAA, 0xBABA, 0xCACA, 0xDADA, 0xEAEA, 0xFAFA}

  lemma GreaseIsListed(v: uint16)
    ensures IsGrease(v) <==> v in GREASE
  {
    GreaseTable(v);
  }

  // The values of vs that are not in `out`, in order.
  function Without(vs: seq<uint16>, out: set<int>): seq<uint16> {
    if vs == [] then []
    else (if vs[0] in out then [] else [vs[0]]) + Without(vs[1..], out)
  }

  lemma {:induction false} WithoutLast(vs: seq<uint16>, x: uint16, out: set<int>)
    ensures Without(vs + [x], out) == Without(vs, out) + if x in out then [] else [x]
  {
    if vs == [] {
      assert [x][1..] == [] && [] + [x] == [x];
    } else {
      assert (vs + [x])[1..] == vs[1..] + [x];
      WithoutLast(vs[1..], x, out);
    }
  }

  lemma {:induction false} StrippedIsWithout(vs: seq<uint16>)
    ensures Stripped(vs) == Without(vs, GREASE)
  {
    hide IsGrease, Without;
    if vs == [] {
      WithoutNothing(GREASE);
    } else {
      var k := |vs| - 1;
      StrippedIsWithout(vs[..k]);
      assert vs == vs[..k] + [vs[k]];
      WithoutLast(vs[..k], vs[k], GREASE);
      GreaseIsListed(vs[k]);
    }
  }

  lemma WithoutNothing(out: set<int>)
    ensures Without([], out) == []
  {
  }

  method StripGrease(vs: seq<uint16>) returns (out: seq<uint16>)
    ensures out == Stripped(vs)
  {
    hide IsGrease;
    out := [];
    for i := 0 to |vs|
      invariant out == Stripped(vs[..i])
    {
      assert vs[..i + 1][..i] == vs[..i];
      if IsGrease(vs[i]) {
        continue;
      }
      out := out + [vs[i]];
    }
    assert vs[..|vs|] == vs;
  }

  lemma {:induction false} StrippedAppend(a: seq<uint16>, b: seq<uint16>)
    ensures Stripped(a + b) == Stripped(a) + Stripped(b)
  {
    hide IsGrease;
    if b == [] {
      assert a + b == a;
    } else {
      var k := |b| - 1;
      StrippedAppend(a, b[..k]);
      assert (a + b)[..|a| + k] == a + b[..k];
    }
  }

  // Putting GREASE values anywhere changes nothing.
  lemma StrippedInsert(a: seq<uint16>, g: seq<uint16>, b: seq<uint16>)
    requires forall i :: 0 <= i < |g| ==> IsGrease(g[i])
    ensures Stripped(a + g + b) == Stripped(a + b)
  {
    hide IsGrease, Stripped;
    StrippedAppend(a + g, b);
    StrippedAppend(a, g);
    StrippedAppend(a, b);
    NothingLeft(g);
    assert Stripped(a) + [] == Stripped(a);
  }

  lemma {:induction false} NothingLeft(g: seq<uint16>)
    requires forall i :: 0 <= i < |g| ==> IsGrease(g[i])
    ensures Stripped(g) == []
  {
    if g != [] {
      NothingLeft(g[..|g| - 1]);
    }
  }

  lemma {:induction false} StrippedPermuted(xs: seq<uint16>, ys: seq<uint16>)
    requires multiset(xs) == multiset(ys)
    ensures multiset(Stripped(xs)) == multiset(Stripped(ys))
    decreases |xs|
  {
    hide IsGrease;
    if xs != [] {
      var a, b := TakeOut(xs, ys);
      StrippedPermuted(xs[1..], a + b);
      StrippedWithout([], xs[0], xs[1..]);
      assert [] + ([xs[0]] + xs[1..]) == xs && [] + xs[1..] == xs[1..];
      StrippedWithout(a, xs[0], b);
    }
  }

  lemma StrippedWithout(a: seq<uint16>, x: uint16, b: seq<uint16>)
    ensures multiset(Stripped(a + ([x] + b))) ==
            multiset(Stripped(a + b)) + if IsGrease(x) then multiset{} else multiset{x}
  {
    hide IsGrease;
    StrippedAppend(a, [x] + b);
    StrippedAppend([x], b);
    StrippedAppend(a, b);
    assert [x][..0] == [] && Stripped([x]) == if IsGrease(x) then [] else [x];
    if !IsGrease(x) {
      PartsMultiset(Stripped(a), x, Stripped(b));
    } else {
      assert [] + Stripped(b) == Stripped(b);
    }
  }

  // ---- Joined decimals ----

  function Texts(vs: seq<nat>): (r: seq<string>)
    ensures |r| == |vs| && forall i :: 0 <= i < |vs| ==> r[i] == Digits(vs[i])
  {
    seq(|vs|, i requires 0 <= i < |vs| => Digits(vs[i]))
  }

  function Joined(vs: seq<nat>, sep: char): string {
    Join(Texts(vs), [sep])
  }

  method JoinNumbers(vs: seq<nat>, sep: char) returns (r: string)
    ensures r == Joined(vs, sep)
  {
    if |vs| == 0 {
      return "";
    }
    var parts := new string[|vs|];
    for i := 0 to |vs|
      invariant forall j :: 0 <= j < i ==> parts[j] == Digits(vs[j])
    {
      parts[i] := Digits(vs[i]);
    }
    assert parts[..] == Texts(vs);
    r := Join(parts[..], [sep]);
  }

  // ---- Reading joined text back ----

  function Split(s: string, sep: char): (parts: seq<string>)
    ensures parts != []
  {
    if s == "" then [""]
    else
      var rest := Split(s[1..], sep);
      if s[0] == sep then [""] + rest else [[s[0]] + rest[0]] + rest[1..]
  }

  lemma {:induction false} SplitFirst(part: string, s: string, sep: char)
    requires sep !in part
    ensures Split(part, sep) == [part]
    ensures Split(part + [sep] + s, sep) == [part] + Split(s, sep)
  {
    if part == "" {
      assert part + [sep] + s == [sep] + s;
    } else {
      SplitFirst(part[1..], s, sep);
      assert (part + [sep] + s)[1..] == part[1..] + [sep] + s;
      assert part == [part[0]] + part[1..];
    }
  }

  lemma {:induction false} SplitJoin(parts: seq<string>, sep: char)
    requires parts != [] && forall i :: 0 <= i < |parts| ==> sep !in parts[i]
    ensures Split(Join(parts, [sep]), sep) == parts
  {
    if |parts| == 1 {
      SplitFirst(parts[0], "", sep);
    } else {
      SplitJoin(parts[1..], sep);
      SplitFirst(parts[0], Join(parts[1..], [sep]), sep);
      assert parts == [parts[0]] + parts[1..];
    }
  }

  function Number(s: string): nat {
    if AllDigits(s) then Value(s) else 0
  }

  function Numbers(parts: seq<string>): (r: seq<nat>)
    ensures |r| == |parts| && forall i :: 0 <= i < |parts| ==> r[i] == Number(parts[i])
  {
    seq(|parts|, i requires 0 <= i < |parts| => Number(parts[i]))
  }

  function Unjoined(s: string, sep: char): seq<nat> {
    if s == "" then [] else Numbers(Split(s, sep))
  }

  lemma DigitsAvoid(n: nat, sep: char)
    requires !IsDigit(sep)
    ensures sep !in Digits(n)
  {
  }

  lemma UnjoinedJoined(vs: seq<nat>, sep: char)
    requires !IsDigit(sep)
    ensures Unjoined(Joined(vs, sep), sep) == vs
  {
    hide Digits;
    if vs != [] {
      var parts := Texts(vs);
      forall i | 0 <= i < |parts| ensures sep !in parts[i] && Number(parts[i]) == vs[i] {
        DigitsAvoid(vs[i], sep);
        ValueOfDigits(vs[i]);
      }
      SplitJoin(parts, sep);
      assert Join(parts, [sep]) != "" by {
        assert parts[0] != "";
      }
    }
  }

  lemma JoinedInjective(xs: seq<nat>, ys: seq<nat>, sep: char)
    requires !IsDigit(sep) && Joined(xs, sep) == Joined(ys, sep)
    ensures xs == ys
  {
    UnjoinedJoined(xs, sep);
    UnjoinedJoined(ys, sep);
  }

  // Joined text holds digits and the separator, nothing else.
  lemma {:induction false} JoinedAvoids(parts: seq<string>, sep: char, c: char)
    requires c != sep && forall i :: 0 <= i < |parts| ==> c !in parts[i]
    ensures c !in Join(parts, [sep])
  {
    if |parts| > 1 {
      JoinedAvoids(parts[1..], sep, c);
    }
  }

  lemma NumbersAvoid(vs: seq<nat>, sep: char, c: char)
    requires c != sep && !IsDigit(c)
    ensures c !in Joined(vs, sep)
  {
    forall i | 0 <= i < |vs| ensures c !in Texts(vs)[i] {
      DigitsAvoid(vs[i], c);
    }
    JoinedAvoids(Texts(vs), sep, c);
  }

  // ---- JA3 ----

  // What JA3 keeps of a hello.
  datatype Ja3Fields = Ja3Fields(
    version: nat, ciphers: seq<nat>, extensions: seq<nat>, curves: seq<nat>, pointFormats: seq<nat>)

  function Ja3FieldsOf(f: Hello): Ja3Fields {
    Ja3Fields(f.version, Stripped(f.ciphers), Stripped(f.extensions), Stripped(f.curves), f.pointFormats)
  }

  function Ja3Parts(k: Ja3Fields): (parts: seq<string>)
    ensures |parts| == 5
  {
    [Digits(k.version), Joined(k.ciphers, '-'), Joined(k.extensions, '-'), Joined(k.curves, '-'), Joined(k.pointFormats, '-')]
  }

  function Ja3Text(f: Hello): string {
    Join(Ja3Parts(Ja3FieldsOf(f)), ",")
  }

  method JA3String(f: Hello) returns (s: string)
    ensures s == Ja3Text(f)
  {
    hide Joined, Stripped, Digits;
    var ciphers := StripGrease(f.ciphers);
    var extensions := StripGrease(f.extensions);
    var curves := StripGrease(f.curves);
    var p1 := JoinNumbers(ciphers, '-');
    var p2 := JoinNumbers(extensions, '-');
    var p3 := JoinNumbers(curves, '-');
    var p4 := JoinNumbers(f.pointFormats, '-');
    s := Join([Digits(f.version), p1, p2, p3, p4], ",");
  }

  function ParseJa3(s: string): Option<Ja3Fields> {
    var parts := Split(s, ',');
    if |parts| != 5 then None
    else Some(Ja3Fields(Number(parts[0]), Unjoined(parts[1], '-'), Unjoined(parts[2], '-'),
                        Unjoined(parts[3], '-'), Unjoined(parts[4], '-')))
  }

  // The JA3 text can be read back: nothing it keeps is confused.
  lemma Ja3RoundTrip(f: Hello)
    ensures ParseJa3(Ja3Text(f)) == Some(Ja3FieldsOf(f))
    ensures Ja3FieldsOf(f) == Ja3Fields(f.version, Without(f.ciphers, GREASE), Without(f.extensions, GREASE),
                                        Without(f.curves, GREASE), f.pointFormats)
  {
    StrippedIsWithout(f.ciphers);
    StrippedIsWithout(f.extensions);
    StrippedIsWithout(f.curves);
    hide Joined, Stripped, Digits, Unjoined, Join, Split;
    var k := Ja3FieldsOf(f);
    DigitsAvoid(k.version, ',');
    ValueOfDigits(k.version);
    NumbersAvoid(k.ciphers, '-', ',');
    NumbersAvoid(k.extensions, '-', ',');
    NumbersAvoid(k.curves, '-', ',');
    NumbersAvoid(k.pointFormats, '-', ',');
    SplitJoin(Ja3Parts(k), ',');
    UnjoinedJoined(k.ciphers, '-');
    UnjoinedJoined(k.extensions, '-');
    UnjoinedJoined(k.curves, '-');
    UnjoinedJoined(k.pointFormats, '-');
  }

  // Two hellos have the same JA3 text exactly when they agree on the version,
  // the point formats and, GREASE aside, the three lists.
  lemma Ja3Injective(f: Hello, g: Hello)
    ensures Ja3Text(f) == Ja3Text(g) <==> Ja3FieldsOf(f) == Ja3FieldsOf(g)
  {
    hide Ja3Parts, Ja3FieldsOf, ParseJa3, Join;
    Ja3RoundTrip(f);
    Ja3RoundTrip(g);
  }

  // ---- JA4 ----

  function VersionText(v: uint16): (s: string)
    ensures |s| == 2
  {
    if v == 0x0304 then "13"
    else if v == 0x0303 then "12"
    else if v == 0x0302 then "11"
    else if v == 0x0301 then "10"
    else "00"
  }

  function Capped(n: nat): nat {
    if n > 99 then 99 else n
  }

  function TwoDigits(n: nat): string {
    var m := Capped(n);
    if m < 10 then "0" + Digits(m) else Digits(m)
  }

  // Two characters that determine the count up to the cap.
  lemma TwoDigitsRead(n: nat)
    ensures |TwoDigits(n)| == 2 && AllDigits(TwoDigits(n)) && Value(TwoDigits(n)) == Capped(n)
  {
    var m := Capped(n);
    if m < 10 {
      ReadTwo(TwoDigits(n), 0, m);
    } else {
      assert Digits(m) == Digits(m / 10) + [DigitChar(m % 10)];
      ReadTwo(TwoDigits(n), m / 10, m % 10);
    }
  }

  lemma ReadTwo(s: string, a: nat, b: nat)
    requires a < 10 && b < 10 && s == [DigitChar(a), DigitChar(b)]
    ensures AllDigits(s) && Value(s) == 10 * a + b
  {
    assert s[..1] == [DigitChar(a)] && s[..1][..0] == [];
    assert Value(s[..1]) == a;
  }

  predicate IsPrintable(c: char) {
    ' ' <= c <= '~'
  }

  function FirstAlpn(alpn: seq<string>): (s: string)
    ensures |s| == 2
  {
    if alpn == [] || alpn[0] == "" then "00"
    else
      var first, last := alpn[0][0], alpn[0][|alpn[0]| - 1];
      if !IsPrintable(first) || !IsPrintable(last) then "00" else [first, last]
  }

  function Context(f: Hello): string {
    "t" + VersionText(f.version) + (if f.sni then "d" else "i")
    + TwoDigits(|Stripped(f.ciphers)|) + TwoDigits(|Stripped(f.extensions)|) + FirstAlpn(f.alpn)
  }

  // server_name and ALPN, which the context already speaks of.
  predicate IsMark(v: uint16) {
    v == 0x0000 || v == 0x0010
  }

  // The extensions that count.
  function Counted(vs: seq<uint16>): (r: seq<uint16>)
    ensures forall i :: 0 <= i < |r| ==> r[i] in vs
  {
    if vs == [] then []
    else
      var k := |vs| - 1;
      Counted(vs[..k]) + if IsMark(vs[k]) then [] else [vs[k]]
  }

  predicate CodeLeq(a: uint16, b: uint16) {
    a <= b
  }

  function CipherText(f: Hello): string {
    Joined(Sort(Stripped(f.ciphers), CodeLeq), ',')
  }

  function ExtensionText(f: Hello): string {
    Joined(Sort(Counted(Stripped(f.extensions)), CodeLeq), ',') + "_" + Joined(Stripped(f.signatureAlgorithms), ',')
  }

  // The first twelve characters of the hash; zeros for nothing.
  function Prefix12(hash: string -> string, s: string): string {
    if s == "" then "000000000000" else hash(s)
  }

  predicate Blank(f: Hello) {
    f.version == 0 && f.ciphers == [] && f.extensions == []
  }

  function Ja4Text(hash: string -> string, f: Hello): string {
    if Blank(f) then ""
    else Context(f) + "_" + Prefix12(hash, CipherText(f)) + "_" + Prefix12(hash, ExtensionText(f))
  }

  method JA4(hash: string -> string, f: Hello) returns (s: string)
    ensures s == Ja4Text(hash, f)
  {
    hide Context, CipherText, ExtensionText;
    if f.version == 0 && |f.ciphers| == 0 && |f.extensions| == 0 {
      return "";
    }
    var a := Ja4a(f);
    var b := Ja4b(hash, f);
    var c := Ja4c(hash, f);
    return a + "_" + b + "_" + c;
  }

  method Ja4a(f: Hello) returns (s: string)
    ensures s == Context(f)
  {
    hide TwoDigits, Stripped, FirstAlpn, VersionText;
    s := "t" + VersionText(f.version);
    if f.sni {
      s := s + "d";
    } else {
      s := s + "i";
    }
    var ciphers := StripGrease(f.ciphers);
    var extensions := StripGrease(f.extensions);
    s := s + TwoDigits(|ciphers|) + TwoDigits(|extensions|) + FirstAlpn(f.alpn);
  }

  method Ja4b(hash: string -> string, f: Hello) returns (s: string)
    ensures s == Prefix12(hash, CipherText(f))
  {
    hide Stripped, Sort, Joined;
    var codes := StripGrease(f.ciphers);
    var sorted := Sort(codes, CodeLeq);
    var text := JoinNumbers(sorted, ',');
    return Prefix12(hash, text);
  }

  method Ja4c(hash: string -> string, f: Hello) returns (s: string)
    ensures s == Prefix12(hash, ExtensionText(f))
  {
    hide Stripped, Sort, Joined;
    var stripped := StripGrease(f.extensions);
    var exts: seq<uint16> := [];
    for i := 0 to |stripped|
      invariant exts == Counted(stripped[..i])
    {
      assert stripped[..i + 1][..i] == stripped[..i];
      if stripped[i] == 0x0000 || stripped[i] == 0x0010 {
        continue;
      }
      exts := exts + [stripped[i]];
    }
    assert stripped[..|stripped|] == stripped;
    exts := Sort(exts, CodeLeq);
    var sigAlgs := StripGrease(f.signatureAlgorithms);
    var left := JoinNumbers(exts, ',');
    var right := JoinNumbers(sigAlgs, ',');
    return Prefix12(hash, left + "_" + right);
  }
}
