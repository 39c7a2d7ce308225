/** The in-memory address-risk cache with a time to live per exposure. */
module Cache {
  import opened Text
  import opened Keys
  import Decision

  /** Times and durations are nanoseconds counted as integers. */
  datatype Verdict = Verdict(address: string, chain: string, score: int, exposure: string, decision: string,
                             vendor: string)
  datatype Entry = Entry(verdict: Verdict, expiresAt: int)
  datatype Ttls = Ttls(default: int, sanctioned: int)

  function Ttl(ttls: Ttls, exposure: string): int {
    if exposure == Decision.SANCTIONED then ttls.sanctioned else ttls.default
  }

  function Min(ttls: Ttls): (m: int)
    ensures m <= ttls.default && m <= ttls.sanctioned && (m == ttls.default || m == ttls.sanctioned)
  {
    if ttls.default < ttls.sanctioned then ttls.default else ttls.sanctioned
  }

  function Get(mem: map<string, Entry>, address: string, chain: string, now: int): Option<Verdict> {
    var k := CacheKey(address, chain);
    if k !in mem || now > mem[k].expiresAt then None else Some(mem[k].verdict)
  }

  function Set(mem: map<string, Entry>, ttls: Ttls, v: Verdict, now: int): map<string, Entry> {
    mem[CacheKey(v.address, v.chain) := Entry(v, now + Ttl(ttls, v.exposure))]
  }

  function Delete(mem: map<string, Entry>, address: string, chain: string): map<string, Entry> {
    mem - {CacheKey(address, chain)}
  }

  /** What has been done to a cache, oldest first. */
  datatype Event = SetEvent(verdict: Verdict, at: int) | DeleteEvent(address: string, chain: string)

  function Address(e: Event): string { if e.SetEvent? then e.verdict.address else e.address }
  function Chain(e: Event): string { if e.SetEvent? then e.verdict.chain else e.chain }

  function Replay(h: seq<Event>, ttls: Ttls): map<string, Entry> {
    if h == [] then map[]
    else
      var mem := Replay(h[..|h| - 1], ttls);
      match h[|h| - 1]
      case SetEvent(v, at) => Set(mem, ttls, v, at)
      case DeleteEvent(a, c) => Delete(mem, a, c)
  }

  predicate Concerns(e: Event, address: string, chain: string) {
    Address(e) == address && Chain(e) == chain
  }

  /** h[i] is the latest event about this pair. */
  ghost predicate Latest(h: seq<Event>, i: int, address: string, chain: string) {
    0 <= i < |h| && Concerns(h[i], address, chain) &&
    forall j :: i < j < |h| ==> !Concerns(h[j], address, chain)
  }

  /** The history says that a lookup at this time finds v: it was stored last, and no longer ago than the
      time to live of its exposure. */
  ghost predicate Live(h: seq<Event>, ttls: Ttls, address: string, chain: string, now: int, v: Verdict, i: int) {
    Latest(h, i, address, chain) && h[i].SetEvent? && h[i].verdict == v &&
    now <= h[i].at + if v.exposure == "SANCTIONED" then ttls.sanctioned else ttls.default
  }

  ghost function Chains(h: seq<Event>): set<string> {
    set i | 0 <= i < |h| :: Chain(h[i])
  }

  /** An event about another pair leaves the key of this pair alone. */
  lemma OtherPairKeepsKey(h: seq<Event>, ttls: Ttls, chains: set<string>, address: string, chain: string)
    requires h != [] && Separated(chains) && Chain(h[|h| - 1]) in chains && chain in chains
    requires !Concerns(h[|h| - 1], address, chain)
    ensures var k := CacheKey(address, chain);
            var (m, m') := (Replay(h[..|h| - 1], ttls), Replay(h, ttls));
            (k in m <==> k in m') && (k in m ==> m[k] == m'[k])
  {
    InjectiveIffSeparated(chains);
    assert CacheKey(Address(h[|h| - 1]), Chain(h[|h| - 1])) != CacheKey(address, chain);
  }

  lemma ChainsOfPrefix(h: seq<Event>, n: nat)
    requires n <= |h|
    ensures Chains(h[..n]) <= Chains(h)
  {
    forall i | 0 <= i < n ensures Chain(h[..n][i]) in Chains(h) {
      assert h[..n][i] == h[i];
    }
  }

  lemma {:induction false} LatestDecidesKey(h: seq<Event>, ttls: Ttls, chains: set<string>, address: string,
                                            chain: string, i: int)
    requires Separated(chains) && Chains(h) <= chains && chain in chains
    requires Latest(h, i, address, chain)
    ensures var k := CacheKey(address, chain);
            var m := Replay(h, ttls);
            match h[i]
            case SetEvent(v, at) => k in m && m[k] == Entry(v, at + Ttl(ttls, v.exposure))
            case DeleteEvent(_, _) => k !in m
  {
    var n := |h| - 1;
    if i < n {
      assert Chain(h[n]) in Chains(h);
      ChainsOfPrefix(h, n);
      OtherPairKeepsKey(h, ttls, chains, address, chain);
      LatestDecidesKey(h[..n], ttls, chains, address, chain, i);
    }
  }

  lemma {:induction false} UntouchedKeyIsAbsent(h: seq<Event>, ttls: Ttls, chains: set<string>, address: string,
                                                chain: string)
    requires Separated(chains) && Chains(h) <= chains && chain in chains
    requires forall i :: 0 <= i < |h| ==> !Concerns(h[i], address, chain)
    ensures CacheKey(address, chain) !in Replay(h, ttls)
  {
    if h != [] {
      var n := |h| - 1;
      assert Chain(h[n]) in Chains(h);
      ChainsOfPrefix(h, n);
      OtherPairKeepsKey(h, ttls, chains, address, chain);
      UntouchedKeyIsAbsent(h[..n], ttls, chains, address, chain);
    }
  }

  lemma FindLatest(h: seq<Event>, address: string, chain: string) returns (i: int)
    ensures i < 0 ==> forall j :: 0 <= j < |h| ==> !Concerns(h[j], address, chain)
    ensures i >= 0 ==> Latest(h, i, address, chain)
  {
    i := |h| - 1;
    while i >= 0 && !Concerns(h[i], address, chain)
      invariant -1 <= i < |h|
      invariant forall j :: i < j < |h| ==> !Concerns(h[j], address, chain)
    {
      i := i - 1;
    }
  }

  /** Looking up agrees with the history. */
  ghost predicate Agrees(h: seq<Event>, ttls: Ttls, address: string, chain: string, now: int, v: Verdict) {
    Get(Replay(h, ttls), address, chain, now) == Some(v) <==>
    exists i :: Live(h, ttls, address, chain, now, v, i)
  }

  lemma GetRefinesHistory(h: seq<Event>, ttls: Ttls, chains: set<string>, address: string, chain: string, now: int,
                          v: Verdict)
    requires Separated(chains) && Chains(h) <= chains && chain in chains
    ensures Agrees(h, ttls, address, chain, now, v)
  {
    var i := FindLatest(h, address, chain);
    if i < 0 {
      UntouchedKeyIsAbsent(h, ttls, chains, address, chain);
    } else {
      LatestDecidesKey(h, ttls, chains, address, chain, i);
      assert forall j :: Latest(h, j, address, chain) ==> j == i;
      assert Live(h, ttls, address, chain, now, v, i) <==> Get(Replay(h, ttls), address, chain, now) == Some(v);
    }
  }

  /** The cache can answer for a pair that was never stored. */
  lemma ConfusedChains(ttls: Ttls, c1: string, c2: string, v: Verdict)
    requires Extends(c1, c2) && v.chain == c2 && Ttl(ttls, v.exposure) >= 0
    ensures !Agrees([SetEvent(v, 0)], ttls, c2[|c1| + 1..] + ":" + v.address, c1, 0, v)
  {
    var h := [SetEvent(v, 0)];
    CacheKeyCollision(c2[|c1| + 1..] + ":" + v.address, c1, v.address, c2);
    assert h[..0] == [];
    assert Replay(h, ttls) == Set(map[], ttls, v, 0);
  }

  ghost predicate AgreesOn(chains: set<string>, ttls: Ttls) {
    forall h, a, c, now, v :: Chains(h) <= chains && c in chains ==> Agrees(h, ttls, a, c, now, v)
  }

  /** For the chains in use: every lookup, after every history, finds v exactly when the latest event
      about that very pair stored v and its time to live has not run out (the instant of expiry still
      hits) -- if and only if no chain in use extends another by a colon. */
  lemma CacheAgreesIffSeparated(chains: set<string>, ttls: Ttls)
    requires ttls.default >= 0
    ensures AgreesOn(chains, ttls) <==> Separated(chains)
  {
    if Separated(chains) {
      forall h, a, c, now, v | Chains(h) <= chains && c in chains ensures Agrees(h, ttls, a, c, now, v) {
        GetRefinesHistory(h, ttls, chains, a, c, now, v);
      }
    } else {
      var c1, c2 :| c1 in chains && c2 in chains && Extends(c1, c2);
      var v := Verdict("x", c2, 0, Decision.CLEAN, Decision.ALLOW, "");
      ConfusedChains(ttls, c1, c2, v);
      assert Chains([SetEvent(v, 0)]) <= chains;
    }
  }

  class MemoryCache {
    var mem: map<string, Entry>
    const ttls: Ttls
    ghost var history: seq<Event>

    ghost predicate Valid()
      reads this
    {
      mem == Replay(history, ttls)
    }

    constructor (defaultTtl: int, sanctionedTtl: int)
      ensures Valid() && history == [] && mem == map[] && ttls == Ttls(defaultTtl, sanctionedTtl)
    {
      mem, ttls, history := map[], Ttls(defaultTtl, sanctionedTtl), [];
    }

    method Lookup(address: string, chain: string, now: int) returns (r: Option<Verdict>)
      requires Valid()
      ensures r == Get(mem, address, chain, now)
      ensures Separated(Chains(history) + {chain}) ==>
                forall v :: r == Some(v) <==> exists i :: Live(history, ttls, address, chain, now, v, i)
    {
      var k := CacheKey(address, chain);
      if k !in mem || now > mem[k].expiresAt {
        r := None;
      } else {
        r := Some(mem[k].verdict);
      }
      if Separated(Chains(history) + {chain}) {
        forall v ensures r == Some(v) <==> exists i :: Live(history, ttls, address, chain, now, v, i) {
          GetRefinesHistory(history, ttls, Chains(history) + {chain}, address, chain, now, v);
        }
      }
    }

    method Store(v: Verdict, now: int)
      requires Valid()
      modifies this
      ensures Valid() && history == old(history) + [SetEvent(v, now)]
      ensures mem == Set(old(mem), ttls, v, now)
    {
      var ttl := ttls.default;
      if v.exposure == Decision.SANCTIONED {
        ttl := ttls.sanctioned;
      }
      mem := mem[CacheKey(v.address, v.chain) := Entry(v, now + ttl)];
      history := history + [SetEvent(v, now)];
    }

    method Invalidate(address: string, chain: string)
      requires Valid()
      modifies this
      ensures Valid() && history == old(history) + [DeleteEvent(address, chain)]
      ensures mem == Delete(old(mem), address, chain)
    {
      mem := mem - {CacheKey(address, chain)};
      history := history + [DeleteEvent(address, chain)];
    }
  }
}
