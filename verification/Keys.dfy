/** The composite string keys the service builds by joining fields with colons. */
module Keys {
  import opened Text

  /** The key of the address-risk cache. */
  function CacheKey(address: string, chain: string): string {
    chain + ":" + address
  }

  /** The event id given to a webhook that carries none. */
  function SynthesizedEventId(vendor: string, chain: string, address: string, exposure: string): string {
    vendor + ":" + chain + ":" + address + ":" + exposure
  }

  /** Chain c2 starts with chain c1 followed by a colon. */
  predicate Extends(c1: string, c2: string) {
    c1 + ":" <= c2
  }

  predicate Separated(chains: set<string>) {
    forall c1, c2 :: c1 in chains && c2 in chains ==> !Extends(c1, c2)
  }

  /** Exactly when two (address, chain) pairs share a cache key. */
  lemma CacheKeyCollision(a1: string, c1: string, a2: string, c2: string)
    ensures CacheKey(a1, c1) == CacheKey(a2, c2) <==>
            || (a1 == a2 && c1 == c2)
            || (Extends(c1, c2) && a1 == c2[|c1| + 1..] + ":" + a2)
            || (Extends(c2, c1) && a2 == c1[|c2| + 1..] + ":" + a1)
  {
    var k1, k2 := CacheKey(a1, c1), CacheKey(a2, c2);
    assert k1[..|c1|] == c1 && k1[|c1| + 1..] == a1 && k1[|c1|] == ':';
    assert k2[..|c2|] == c2 && k2[|c2| + 1..] == a2 && k2[|c2|] == ':';
    if Extends(c1, c2) && a1 == c2[|c1| + 1..] + ":" + a2 {
      assert c2 == c1 + ":" + c2[|c1| + 1..];
      assert k1 == c1 + ":" + c2[|c1| + 1..] + ":" + a2 == k2;
    }
    if Extends(c2, c1) && a2 == c1[|c2| + 1..] + ":" + a1 {
      assert c1 == c2 + ":" + c1[|c2| + 1..];
      assert k2 == c2 + ":" + c1[|c2| + 1..] + ":" + a1 == k1;
    }
    if k1 == k2 {
      if |c1| < |c2| {
        assert c2[..|c1| + 1] == k1[..|c1| + 1] == c1 + ":";
        assert k1[|c1| + 1..] == c2[|c1| + 1..] + ":" + a2;
      } else if |c2| < |c1| {
        assert c1[..|c2| + 1] == k2[..|c2| + 1] == c2 + ":";
        assert k2[|c2| + 1..] == c1[|c2| + 1..] + ":" + a1;
      }
    }
  }

  ghost predicate InjectiveOn(chains: set<string>) {
    forall a1, c1, a2, c2 :: c1 in chains && c2 in chains && CacheKey(a1, c1) == CacheKey(a2, c2) ==>
      a1 == a2 && c1 == c2
  }

  /** The cache keeps (address, chain) pairs apart exactly when no chain extends another by a colon. */
  lemma InjectiveIffSeparated(chains: set<string>)
    ensures InjectiveOn(chains) <==> Separated(chains)
  {
    if Separated(chains) {
      forall a1, c1, a2, c2 | c1 in chains && c2 in chains && CacheKey(a1, c1) == CacheKey(a2, c2)
        ensures a1 == a2 && c1 == c2
      {
        CacheKeyCollision(a1, c1, a2, c2);
      }
    } else {
      var c1, c2 :| c1 in chains && c2 in chains && Extends(c1, c2);
      var a1 := c2[|c1| + 1..] + ":";
      CacheKeyCollision(a1, c1, "", c2);
      assert a1 == c2[|c1| + 1..] + ":" + "";
    }
  }

  lemma ExtensionHasColon(c1: string, c2: string)
    ensures Extends(c1, c2) ==> ':' in c2
  {
    if Extends(c1, c2) { assert c2[|c1|] == ':'; }
  }

  lemma ColonFreeChainsAreSeparated(chains: set<string>)
    requires forall c :: c in chains ==> ':' !in c
    ensures Separated(chains)
  {
    forall c1, c2 { ExtensionHasColon(c1, c2); }
  }

  /** Two pairs that validation accepts and the cache confuses. */
  lemma CacheKeyCollides()
    ensures CacheKey("1:x", "eth") == CacheKey("x", "eth:1")
    ensures forall s :: s in {"1:x", "eth", "x", "eth:1"} ==> !IsBlank(s)
  {
    assert "1:x"[0] == '1' && "eth"[0] == 'e' && "x"[0] == 'x' && "eth:1"[0] == 'e';
  }

  lemma FirstColon(a: string, x: string, b: string, y: string)
    requires ':' !in a && ':' !in b && a + ":" + x == b + ":" + y
    ensures a == b && x == y
  {
    var s := a + ":" + x;
    assert s[|a|] == ':' && s[|b|] == ':';
    assert forall i :: 0 <= i < |a| ==> s[i] == a[i];
    assert forall i :: 0 <= i < |b| ==> s[i] == b[i];
    assert s[..|a|] == a && s[..|b|] == b && s[|a| + 1..] == x && s[|b| + 1..] == y;
  }

  lemma LastColon(x: string, a: string, y: string, b: string)
    requires ':' !in a && ':' !in b && x + ":" + a == y + ":" + b
    ensures a == b && x == y
  {
    var s := x + ":" + a;
    assert s[|x|] == ':' && s[|y|] == ':';
    assert forall i :: |x| < i < |s| ==> s[i] == a[i - |x| - 1];
    assert forall i :: |y| < i < |s| ==> s[i] == b[i - |y| - 1];
    assert s[..|x|] == x && s[..|y|] == y && s[|x| + 1..] == a && s[|y| + 1..] == b;
  }

  /** A synthesized id determines its four fields; only the address may contain colons. */
  lemma SynthesizedEventIdInjective(v1: string, c1: string, a1: string, e1: string,
                                    v2: string, c2: string, a2: string, e2: string)
    requires forall s :: s in {v1, c1, e1, v2, c2, e2} ==> ':' !in s
    requires SynthesizedEventId(v1, c1, a1, e1) == SynthesizedEventId(v2, c2, a2, e2)
    ensures v1 == v2 && c1 == c2 && a1 == a2 && e1 == e2
  {
    assert v1 in {v1, c1, e1, v2, c2, e2} && c1 in {v1, c1, e1, v2, c2, e2} && e1 in {v1, c1, e1, v2, c2, e2};
    assert v2 in {v1, c1, e1, v2, c2, e2} && c2 in {v1, c1, e1, v2, c2, e2} && e2 in {v1, c1, e1, v2, c2, e2};
    LastColon(v1 + ":" + c1 + ":" + a1, e1, v2 + ":" + c2 + ":" + a2, e2);
    assert v1 + ":" + c1 + ":" + a1 == v1 + ":" + (c1 + ":" + a1);
    assert v2 + ":" + c2 + ":" + a2 == v2 + ":" + (c2 + ":" + a2);
    FirstColon(v1, c1 + ":" + a1, v2, c2 + ":" + a2);
    FirstColon(c1, a1, c2, a2);
  }

  // ------------------------------------- exactly when synthesized ids keep events apart

  /** What an id starts and ends with, around the address. */
  function Head(vendor: string, chain: string): string {
    vendor + ":" + chain + ":"
  }

  function Tail(exposure: string): string {
    ":" + exposure
  }

  predicate EndsIn(s: string, t: string) {
    |t| <= |s| && s[|s| - |t|..] == t
  }

  /** Sources are (vendor, chain) pairs: none of their heads starts another's. */
  predicate HeadsApart(sources: set<(string, string)>) {
    forall p, q :: p in sources && q in sources && p != q ==> !(Head(p.0, p.1) <= Head(q.0, q.1))
  }

  predicate TailsApart(exposures: set<string>) {
    forall e, f :: e in exposures && f in exposures && e != f ==> !EndsIn(Tail(f), Tail(e))
  }

  /** Two different events, each with an address, that would get the same id. */
  predicate SameId(p: (string, string), a: string, e: string, q: (string, string), b: string, f: string) {
    && a != "" && b != "" && (p, a, e) != (q, b, f)
    && SynthesizedEventId(p.0, p.1, a, e) == SynthesizedEventId(q.0, q.1, b, f)
  }

  ghost predicate EventIdsInjectiveOn(sources: set<(string, string)>, exposures: set<string>) {
    forall p, q, a, b, e, f | p in sources && q in sources && e in exposures && f in exposures ::
      !SameId(p, a, e, q, b, f)
  }

  lemma IdParts(vendor: string, chain: string, address: string, exposure: string)
    ensures var id := SynthesizedEventId(vendor, chain, address, exposure);
            && id == Head(vendor, chain) + address + Tail(exposure)
            && Head(vendor, chain) <= id && EndsIn(id, Tail(exposure))
            && id[|Head(vendor, chain)|..|id| - |Tail(exposure)|] == address
  {
    var id := SynthesizedEventId(vendor, chain, address, exposure);
    assert id == Head(vendor, chain) + address + Tail(exposure);
  }

  lemma PrefixesCompare(x: string, y: string, s: string)
    requires x <= s && y <= s
    ensures x <= y || y <= x
  {
  }

  lemma SuffixesCompare(x: string, y: string, s: string)
    requires EndsIn(s, x) && EndsIn(s, y)
    ensures EndsIn(y, x) || EndsIn(x, y)
  {
    if |x| <= |y| {
      assert y[|y| - |x|..] == s[|s| - |y|..][|y| - |x|..] == x;
    } else {
      assert x[|x| - |y|..] == s[|s| - |x|..][|x| - |y|..] == y;
    }
  }

  lemma ApartIsInjective(sources: set<(string, string)>, exposures: set<string>, p: (string, string), a: string,
                         e: string, q: (string, string), b: string, f: string)
    requires HeadsApart(sources) && TailsApart(exposures)
    requires p in sources && q in sources && e in exposures && f in exposures
    ensures !SameId(p, a, e, q, b, f)
  {
    if SynthesizedEventId(p.0, p.1, a, e) == SynthesizedEventId(q.0, q.1, b, f) {
      var id := SynthesizedEventId(p.0, p.1, a, e);
      IdParts(p.0, p.1, a, e);
      IdParts(q.0, q.1, b, f);
      PrefixesCompare(Head(p.0, p.1), Head(q.0, q.1), id);
      SuffixesCompare(Tail(e), Tail(f), id);
    }
  }

  lemma Shift(x: string, y: string, m: string, t: string)
    requires x <= y
    ensures x + (y[|x|..] + m) + t == y + m + t
  {
    assert x + (y[|x|..] + m) == (x + y[|x|..]) + m;
  }

  lemma ShiftBack(x: string, y: string, m: string, h: string)
    requires EndsIn(y, x)
    ensures h + (m + y[..|y| - |x|]) + x == h + m + y
  {
    assert y[..|y| - |x|] + x == y;
  }

  lemma HeadsClash(p: (string, string), q: (string, string), e: string) returns (a: string)
    requires p != q && Head(p.0, p.1) <= Head(q.0, q.1)
    ensures SameId(p, a, e, q, "x", e)
  {
    var h, k := Head(p.0, p.1), Head(q.0, q.1);
    a := k[|h|..] + "x";
    Shift(h, k, "x", Tail(e));
    IdParts(p.0, p.1, a, e);
    IdParts(q.0, q.1, "x", e);
  }

  lemma TailsClash(p: (string, string), e: string, f: string) returns (a: string)
    requires e != f && EndsIn(Tail(f), Tail(e))
    ensures SameId(p, a, e, p, "x", f)
  {
    a := "x" + Tail(f)[..|Tail(f)| - |Tail(e)|];
    ShiftBack(Tail(e), Tail(f), "x", Head(p.0, p.1));
    IdParts(p.0, p.1, a, e);
    IdParts(p.0, p.1, "x", f);
  }

  /** Synthesized ids tell the events of these sources and exposures apart exactly when no head starts
      another and no tail ends another. The addresses may be any. */
  lemma EventIdsInjectiveIffApart(sources: set<(string, string)>, exposures: set<string>)
    requires sources != {} && exposures != {}
    ensures EventIdsInjectiveOn(sources, exposures) <==> HeadsApart(sources) && TailsApart(exposures)
  {
    if HeadsApart(sources) && TailsApart(exposures) {
      forall p, q, a, b, e, f | p in sources && q in sources && e in exposures && f in exposures
        ensures !SameId(p, a, e, q, b, f)
      {
        ApartIsInjective(sources, exposures, p, a, e, q, b, f);
      }
    } else if !HeadsApart(sources) {
      var p, q :| p in sources && q in sources && p != q && Head(p.0, p.1) <= Head(q.0, q.1);
      var e :| e in exposures;
      var a := HeadsClash(p, q, e);
    } else {
      var e, f :| e in exposures && f in exposures && e != f && EndsIn(Tail(f), Tail(e));
      var p :| p in sources;
      var a := TailsClash(p, e, f);
    }
  }
}
