// What a JA4 text depends on, and what it ignores.

module TlsProps {
  import opened Strings
  import opened Decimal
  import opened Sorting
  import opened Tls

  lemma CodeOrder()
    ensures TotalOrder(CodeLeq) && Antisymmetric(CodeLeq)
  {
  }

  // What JA4 keeps of a hello that is not blank.
  ghost predicate SameJa4Facts(f: Hello, g: Hello) {
    && VersionText(f.version) == VersionText(g.version) && f.sni == g.sni && FirstAlpn(f.alpn) == FirstAlpn(g.alpn)
    && Capped(|Stripped(f.extensions)|) == Capped(|Stripped(g.extensions)|)
    && multiset(Stripped(f.ciphers)) == multiset(Stripped(g.ciphers))
    && multiset(Counted(Stripped(f.extensions))) == multiset(Counted(Stripped(g.extensions)))
    && Stripped(f.signatureAlgorithms) == Stripped(g.signatureAlgorithms)
  }

  // ---- Same facts, same text ----

  lemma SameFactsSameText(hash: string -> string, f: Hello, g: Hello)
    requires SameJa4Facts(f, g) && !Blank(f) && !Blank(g)
    ensures Ja4Text(hash, f) == Ja4Text(hash, g)
  {
    hide Stripped, Counted, Joined, TwoDigits, VersionText, FirstAlpn, Sort;
    CodeOrder();
    SortPermuted(Stripped(f.ciphers), Stripped(g.ciphers), CodeLeq);
    SortPermuted(Counted(Stripped(f.extensions)), Counted(Stripped(g.extensions)), CodeLeq);
    SameElements(Stripped(f.ciphers), Stripped(g.ciphers));
    CappedDigits(|Stripped(f.extensions)|);
    CappedDigits(|Stripped(g.extensions)|);
  }

  lemma CappedDigits(n: nat)
    ensures TwoDigits(n) == TwoDigits(Capped(n))
  {
  }

  // ---- Same text, same facts ----

  // The hash does not send the two texts to one prefix.
  predicate Apart(hash: string -> string, s: string, t: string) {
    Prefix12(hash, s) == Prefix12(hash, t) ==> s == t
  }

  lemma ContextRead(f: Hello)
    ensures var c := Context(f);
            && |c| == 10 && c[1..3] == VersionText(f.version) && (c[3] == 'd' <==> f.sni)
            && c[6..8] == TwoDigits(|Stripped(f.extensions)|) && c[8..] == FirstAlpn(f.alpn)
  {
    hide Stripped, TwoDigits, VersionText, FirstAlpn;
    TwoDigitsRead(|Stripped(f.ciphers)|);
    TwoDigitsRead(|Stripped(f.extensions)|);
  }

  lemma SameContext(f: Hello, g: Hello)
    requires Context(f) == Context(g)
    ensures VersionText(f.version) == VersionText(g.version) && f.sni == g.sni && FirstAlpn(f.alpn) == FirstAlpn(g.alpn)
    ensures Capped(|Stripped(f.extensions)|) == Capped(|Stripped(g.extensions)|)
  {
    hide Context, Stripped, TwoDigits, VersionText, FirstAlpn;
    ContextRead(f);
    ContextRead(g);
    TwoDigitsRead(|Stripped(f.extensions)|);
    TwoDigitsRead(|Stripped(g.extensions)|);
  }

  lemma SortedApart(xs: seq<uint16>, ys: seq<uint16>)
    requires Joined(Sort(xs, CodeLeq), ',') == Joined(Sort(ys, CodeLeq), ',')
    ensures multiset(xs) == multiset(ys)
  {
    hide Joined, Sort;
    JoinedInjective(Sort(xs, CodeLeq), Sort(ys, CodeLeq), ',');
    assert multiset(xs) == multiset(Sort(xs, CodeLeq));
  }

  lemma SameExtensionText(f: Hello, g: Hello)
    requires ExtensionText(f) == ExtensionText(g)
    ensures multiset(Counted(Stripped(f.extensions))) == multiset(Counted(Stripped(g.extensions)))
    ensures Stripped(f.signatureAlgorithms) == Stripped(g.signatureAlgorithms)
  {
    hide Joined, Sort, Stripped, Counted;
    ExtensionTextSplits(f);
    ExtensionTextSplits(g);
    SortedApart(Counted(Stripped(f.extensions)), Counted(Stripped(g.extensions)));
    JoinedInjective(Stripped(f.signatureAlgorithms), Stripped(g.signatureAlgorithms), ',');
  }

  lemma ExtensionTextSplits(f: Hello)
    ensures Split(ExtensionText(f), '_')
         == [Joined(Sort(Counted(Stripped(f.extensions)), CodeLeq), ','), Joined(Stripped(f.signatureAlgorithms), ',')]
  {
    hide Joined, Sort, Stripped, Counted, Split;
    var exts, sigs := Sort(Counted(Stripped(f.extensions)), CodeLeq), Stripped(f.signatureAlgorithms);
    NumbersAvoid(exts, ',', '_');
    NumbersAvoid(sigs, ',', '_');
    SplitFirst(Joined(exts, ','), Joined(sigs, ','), '_');
    SplitFirst(Joined(sigs, ','), "", '_');
  }

  lemma PartsRead(a: string, b: string, c: string)
    requires |a| == 10 && |b| == |c| == 12
    ensures var s := a + "_" + b + "_" + c;
            s[..10] == a && s[11..23] == b && s[24..] == c
  {
  }

  // Up to collisions of the hash, a JA4 text says exactly this much: the
  // version and ALPN marks, the presence of a server name, the capped number
  // of extensions, the set-with-multiplicity of ciphers and of extensions
  // other than server name and ALPN, and the signature algorithms in order,
  // all without GREASE.
  lemma Ja4SaysExactly(hash: string -> string, f: Hello, g: Hello)
    requires !Blank(f) && !Blank(g)
    requires forall s :: |hash(s)| == 12
    requires Apart(hash, CipherText(f), CipherText(g)) && Apart(hash, ExtensionText(f), ExtensionText(g))
    ensures Ja4Text(hash, f) == Ja4Text(hash, g) <==> SameJa4Facts(f, g)
  {
    hide Context, Stripped, Counted, CipherText, ExtensionText, VersionText, FirstAlpn, SameJa4Facts, Capped;
    if SameJa4Facts(f, g) {
      SameFactsSameText(hash, f, g);
    }
    if Ja4Text(hash, f) == Ja4Text(hash, g) {
      ContextRead(f);
      ContextRead(g);
      PartsRead(Context(f), Prefix12(hash, CipherText(f)), Prefix12(hash, ExtensionText(f)));
      PartsRead(Context(g), Prefix12(hash, CipherText(g)), Prefix12(hash, ExtensionText(g)));
      SameContext(f, g);
      SameCipherText(f, g);
      SameExtensionText(f, g);
      FactsTogether(f, g);
    }
  }

  lemma SameCipherText(f: Hello, g: Hello)
    requires CipherText(f) == CipherText(g)
    ensures multiset(Stripped(f.ciphers)) == multiset(Stripped(g.ciphers))
  {
    hide Joined, Sort, Stripped;
    SortedApart(Stripped(f.ciphers), Stripped(g.ciphers));
  }

  lemma FactsTogether(f: Hello, g: Hello)
    requires VersionText(f.version) == VersionText(g.version) && f.sni == g.sni && FirstAlpn(f.alpn) == FirstAlpn(g.alpn)
    requires Capped(|Stripped(f.extensions)|) == Capped(|Stripped(g.extensions)|)
    requires multiset(Stripped(f.ciphers)) == multiset(Stripped(g.ciphers))
    requires multiset(Counted(Stripped(f.extensions))) == multiset(Counted(Stripped(g.extensions)))
    requires Stripped(f.signatureAlgorithms) == Stripped(g.signatureAlgorithms)
    ensures SameJa4Facts(f, g)
  {
  }

  // ---- Order and GREASE ----

  lemma {:induction false} CountedPermuted(xs: seq<uint16>, ys: seq<uint16>)
    requires multiset(xs) == multiset(ys)
    ensures multiset(Counted(xs)) == multiset(Counted(ys))
    decreases |xs|
  {
    hide IsMark;
    if xs != [] {
      var a, b := TakeOut(xs, ys);
      CountedPermuted(xs[1..], a + b);
      CountedWithout([], xs[0], xs[1..]);
      assert [] + ([xs[0]] + xs[1..]) == xs && [] + xs[1..] == xs[1..];
      CountedWithout(a, xs[0], b);
    }
  }

  lemma {:induction false} CountedAppend(a: seq<uint16>, b: seq<uint16>)
    ensures Counted(a + b) == Counted(a) + Counted(b)
  {
    hide IsMark;
    if b == [] {
      assert a + b == a;
    } else {
      var k := |b| - 1;
      CountedAppend(a, b[..k]);
      assert (a + b)[..|a| + k] == a + b[..k];
    }
  }

  lemma CountedWithout(a: seq<uint16>, x: uint16, b: seq<uint16>)
    ensures multiset(Counted(a + ([x] + b))) ==
            multiset(Counted(a + b)) + if IsMark(x) then multiset{} else multiset{x}
  {
    hide IsMark;
    CountedAppend(a, [x] + b);
    CountedAppend([x], b);
    CountedAppend(a, b);
    assert [x][..0] == [] && Counted([x]) == if IsMark(x) then [] else [x];
    if IsMark(x) {
      assert [] + Counted(b) == Counted(b);
    } else {
      PartsMultiset(Counted(a), x, Counted(b));
    }
  }

  // Reordering the ciphers or the extensions changes nothing.
  lemma Ja4IgnoresOrder(hash: string -> string, f: Hello, cs: seq<uint16>, es: seq<uint16>)
    requires multiset(cs) == multiset(f.ciphers) && multiset(es) == multiset(f.extensions)
    ensures Ja4Text(hash, f.(ciphers := cs, extensions := es)) == Ja4Text(hash, f)
  {
    hide Stripped, Counted, Ja4Text, VersionText, FirstAlpn, Capped;
    var g := f.(ciphers := cs, extensions := es);
    SameElements(cs, f.ciphers);
    SameElements(es, f.extensions);
    StrippedPermuted(cs, f.ciphers);
    StrippedPermuted(es, f.extensions);
    CountedPermuted(Stripped(es), Stripped(f.extensions));
    SameElements(Stripped(es), Stripped(f.extensions));
    if Blank(f) {
      assert cs == [] && es == [];
      assert g == f;
    } else {
      SameFactsSameText(hash, g, f);
    }
  }

  // Nor does putting GREASE into the ciphers, extensions or signature
  // algorithms, at any place. The one exception is a blank hello, which has
  // no text at all until it holds a cipher or an extension, GREASE or not.
  lemma Ja4IgnoresGrease(hash: string -> string, f: Hello, c1: seq<uint16>, c2: seq<uint16>, e1: seq<uint16>, e2: seq<uint16>,
                         s1: seq<uint16>, s2: seq<uint16>, gc: seq<uint16>, ge: seq<uint16>, gs: seq<uint16>)
    requires f.ciphers == c1 + c2 && f.extensions == e1 + e2 && f.signatureAlgorithms == s1 + s2
    requires forall i :: 0 <= i < |gc| ==> IsGrease(gc[i])
    requires forall i :: 0 <= i < |ge| ==> IsGrease(ge[i])
    requires forall i :: 0 <= i < |gs| ==> IsGrease(gs[i])
    ensures var g := f.(ciphers := c1 + gc + c2, extensions := e1 + ge + e2, signatureAlgorithms := s1 + gs + s2);
            Ja4Text(hash, g) == Ja4Text(hash, f) <==> !Blank(f) || (gc == [] && ge == [])
  {
    hide Stripped, Counted, VersionText, FirstAlpn, Capped, IsGrease, Context, CipherText, ExtensionText;
    var g := f.(ciphers := c1 + gc + c2, extensions := e1 + ge + e2, signatureAlgorithms := s1 + gs + s2);
    StrippedInsert(c1, gc, c2);
    StrippedInsert(e1, ge, e2);
    StrippedInsert(s1, gs, s2);
    if !Blank(f) {
      assert |g.ciphers| >= |f.ciphers| && |g.extensions| >= |f.extensions|;
      SameFactsSameText(hash, g, f);
    } else {
      assert c1 == c2 == [] && e1 == e2 == [];
      assert g.ciphers == gc && g.extensions == ge;
    }
  }

  // ---- The text, from the hello itself ----

  function Figure(n: nat): char
    requires n < 10
  {
    "0123456789"[n]
  }

  // n as two figures, 99 for more.
  function TwoFigures(n: nat): string {
    if n > 99 then "99" else [Figure(n / 10), Figure(n % 10)]
  }

  lemma FigureOf(n: nat)
    requires n < 10
    ensures Digits(n) == [Figure(n)]
  {
  }

  lemma TwoDigitsShow(n: nat)
    ensures TwoDigits(n) == TwoFigures(n)
  {
    var m := Tls.Capped(n);
    if m < 10 {
      FigureOf(m);
    } else {
      FigureOf(m / 10);
      FigureOf(m % 10);
      assert Digits(m) == Digits(m / 10) + [DigitChar(m % 10)];
    }
  }

  // The context part, character by character.
  ghost predicate IsContext(f: Hello, s: string) {
    && |s| == 10 && s[0] == 't'
    && s[1..3] == (if f.version == 0x0304 then "13" else if f.version == 0x0303 then "12"
                   else if f.version == 0x0302 then "11" else if f.version == 0x0301 then "10" else "00")
    && s[3] == (if f.sni then 'd' else 'i')
    && s[4..6] == TwoFigures(|Without(f.ciphers, GREASE)|)
    && s[6..8] == TwoFigures(|Without(f.extensions, GREASE)|)
    && s[8..] == if |f.alpn| > 0 && |f.alpn[0]| > 0
                    && ' ' <= f.alpn[0][0] <= '~' && ' ' <= f.alpn[0][|f.alpn[0]| - 1] <= '~'
                 then [f.alpn[0][0], f.alpn[0][|f.alpn[0]| - 1]] else "00"
  }

  lemma ContextShows(f: Hello)
    ensures IsContext(f, Context(f))
  {
    hide Without, Stripped, TwoDigits, TwoFigures;
    StrippedIsWithout(f.ciphers);
    StrippedIsWithout(f.extensions);
    TwoDigitsShow(|Stripped(f.ciphers)|);
    TwoDigitsShow(|Stripped(f.extensions)|);
    TwoDigitsRead(|Stripped(f.ciphers)|);
    TwoDigitsRead(|Stripped(f.extensions)|);
  }

  lemma {:induction false} CountedIsWithout(vs: seq<uint16>)
    ensures Counted(Stripped(vs)) == Without(vs, GREASE + {0x0000, 0x0010})
  {
    hide Without, Stripped, Counted;
    if vs == [] {
      WithoutNothing(GREASE + {0x0000, 0x0010});
      NothingCounted();
    } else {
      var k := |vs| - 1;
      CountedIsWithout(vs[..k]);
      assert vs == vs[..k] + [vs[k]];
      WithoutLast(vs[..k], vs[k], GREASE + {0x0000, 0x0010});
      CountedLast(vs[..k], vs[k]);
    }
  }

  lemma NothingCounted()
    ensures Counted(Stripped([])) == []
  {
  }

  lemma CountedLast(vs: seq<uint16>, x: uint16)
    ensures Counted(Stripped(vs + [x])) == Counted(Stripped(vs)) + if x in GREASE || x in {0x0000, 0x0010} then [] else [x]
  {
    hide IsGrease;
    GreaseIsListed(x);
    assert (vs + [x])[..|vs|] == vs;
    if x in GREASE {
      assert Stripped(vs + [x]) == Stripped(vs);
    } else {
      CountedAppend(Stripped(vs), [x]);
      assert [x][..0] == [];
      assert Counted([x]) == if x in {0x0000, 0x0010} then [] else [x];
    }
  }

  // The rearrangement of xs in ascending order.
  ghost predicate Ascending(xs: seq<uint16>, s: seq<uint16>) {
    multiset(s) == multiset(xs) && forall i, j :: 0 <= i < j < |s| ==> s[i] <= s[j]
  }

  lemma SortAscends(xs: seq<uint16>, s: seq<uint16>)
    requires Ascending(xs, s)
    ensures Sort(xs, CodeLeq) == s
  {
    hide Sort;
    CodeOrder();
    SortSorts(xs, CodeLeq);
    SortedUnique(Sort(xs, CodeLeq), s, CodeLeq);
  }

  // A hello of version zero without ciphers and extensions has no text. Any
  // other has the context, the hash of its ciphers in ascending order, zeros
  // for none, and the hash of its extensions in ascending order and its
  // signature algorithms as they come; GREASE, and among the extensions the
  // server name and ALPN, left out.
  lemma Ja4Shows(hash: string -> string, f: Hello, ciphers: seq<uint16>, extensions: seq<uint16>)
    requires Ascending(Without(f.ciphers, GREASE), ciphers)
    requires Ascending(Without(f.extensions, GREASE + {0x0000, 0x0010}), extensions)
    ensures var text := Ja4Text(hash, f);
            if f.version == 0 && f.ciphers == [] && f.extensions == [] then text == ""
            else
              && |text| >= 10 && IsContext(f, text[..10])
              && text[10..] ==
                 "_" + (if ciphers == [] then "000000000000" else hash(Joined(ciphers, ',')))
                 + "_" + hash(Joined(extensions, ',') + "_" + Joined(Without(f.signatureAlgorithms, GREASE), ','))
  {
    hide Without, Stripped, Sort, Joined, Counted, Context, IsContext, Ascending;
    ContextShows(f);
    ContextLength(f);
    StrippedIsWithout(f.ciphers);
    CountedIsWithout(f.extensions);
    StrippedIsWithout(f.signatureAlgorithms);
    SortAscends(Stripped(f.ciphers), ciphers);
    SortAscends(Counted(Stripped(f.extensions)), extensions);
    JoinedEmptyIff(ciphers);
    if !Blank(f) {
      assert Ja4Text(hash, f)[..10] == Context(f);
    }
  }

  lemma ContextLength(f: Hello)
    ensures |Context(f)| == 10
  {
    ContextShows(f);
  }

  lemma JoinedEmptyIff(vs: seq<nat>)
    ensures Joined(vs, ',') == "" <==> vs == []
  {
    UnjoinedJoined(vs, ',');
  }
}
