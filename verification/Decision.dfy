/** Exposure -> decision mapping, and the thresholds reloaded from the environment. */
module Decision {
  import opened Text

  const SANCTIONED := "SANCTIONED"
  const HIGH_RISK := "HIGH_RISK"
  const UNKNOWN := "UNKNOWN"
  const CLEAN := "CLEAN"

  const BLOCK := "BLOCK"
  const MANUAL_REVIEW := "MANUAL_REVIEW"
  const ALLOW := "ALLOW"

  datatype ChainThreshold = ChainThreshold(block: int, highRisk: int)

  /** The value of a Thresholds object, with the table of letters by which it lower-cases chains. */
  datatype Config = Config(block: int, highRisk: int, unknownDecision: string, perChain: map<string, ChainThreshold>,
                           lower: CaseTable)

  // ---------------------------------------------------------------- decisions

  function ThresholdsFor(c: Config, chain: string): (int, int) {
    var key := ToLower(c.lower, chain);
    if key in c.perChain then
      var o := c.perChain[key];
      (if o.block > 0 then o.block else c.block, if o.highRisk > 0 then o.highRisk else c.highRisk)
    else
      (c.block, c.highRisk)
  }

  function ExposureFromScore(c: Config, score: int, chain: string): string {
    var (block, high) := ThresholdsFor(c, chain);
    if score >= block then SANCTIONED
    else if score >= high then HIGH_RISK
    else if score < 0 then UNKNOWN
    else CLEAN
  }

  function Decide(c: Config, exposure: string): string {
    if exposure == SANCTIONED then BLOCK
    else if exposure == HIGH_RISK then MANUAL_REVIEW
    else if exposure == CLEAN then ALLOW
    else if exposure == UNKNOWN then
      (if c.unknownDecision != BLOCK && c.unknownDecision != MANUAL_REVIEW then MANUAL_REVIEW else c.unknownDecision)
    else MANUAL_REVIEW
  }

  /** The decision for a vendor that cannot be reached. */
  function DecideVendorUnreachable(): string { MANUAL_REVIEW }

  function SeverityFor(exposure: string): string {
    if exposure == SANCTIONED then "critical"
    else if exposure == HIGH_RISK then "high"
    else if exposure == UNKNOWN then "medium"
    else "low"
  }

  /** The exposure the screen path settles on: the vendor's own, or one derived from the score. */
  function Exposure(c: Config, vendorExposure: string, score: int, chain: string): string {
    if vendorExposure == "" then ExposureFromScore(c, score, chain) else vendorExposure
  }

  function Strictness(decision: string): nat {
    if decision == ALLOW then 0 else if decision == MANUAL_REVIEW then 1 else 2
  }

  /** An answer is allowed exactly when the vendor says CLEAN, or says nothing and the score is
      non-negative and below both effective thresholds. No configuration widens this. */
  lemma AllowExactly(c: Config, vendorExposure: string, score: int, chain: string)
    ensures Decide(c, Exposure(c, vendorExposure, score, chain)) == ALLOW <==>
            || vendorExposure == CLEAN
            || (vendorExposure == "" && 0 <= score &&
                score < ThresholdsFor(c, chain).0 && score < ThresholdsFor(c, chain).1)
    ensures Decide(c, vendorExposure) in {ALLOW, MANUAL_REVIEW, BLOCK}
  {
  }

  /** What a score amounts to when the vendor names no exposure, band by band: the block threshold is looked
      at first, then the high-risk one, and only a score below both can be unknown or clean. */
  lemma ScoreBands(c: Config, score: int, chain: string)
    ensures var (block, high) := ThresholdsFor(c, chain);
            var exposure := Exposure(c, "", score, chain);
            && (exposure == "SANCTIONED" <==> score >= block)
            && (exposure == "HIGH_RISK" <==> high <= score < block)
            && (exposure == "UNKNOWN" <==> score < block && score < high && score < 0)
            && (exposure == "CLEAN" <==> 0 <= score < block && score < high)
    ensures forall said :: said != "" ==> Exposure(c, said, score, chain) == said
  {
  }

  /** The unknown exposure is blocked under this configuration. */
  predicate BlocksUnknown(c: Config) {
    c.unknownDecision == "BLOCK"
  }

  /** Exactly when an answer is blocked: it is sanctioned, by name or by score, or it is unknown, by name or
      by score, and the configuration blocks the unknown. */
  lemma BlockExactly(c: Config, said: string, score: int, chain: string)
    ensures var (block, high) := ThresholdsFor(c, chain);
            Decide(c, Exposure(c, said, score, chain)) == "BLOCK" <==>
            || said == "SANCTIONED" || (said == "" && score >= block)
            || (BlocksUnknown(c) && (said == "UNKNOWN" || (said == "" && score < 0 && score < block && score < high)))
  {
  }

  /** Everything that is neither allowed nor blocked is for manual review, the unreachable vendor included:
      the vendor or the score says high risk, or unknown, or the vendor says something of its own. */
  lemma ReviewExactly(c: Config, said: string, score: int, chain: string)
    ensures var (block, high) := ThresholdsFor(c, chain);
            Decide(c, Exposure(c, said, score, chain)) == "MANUAL_REVIEW" <==>
            || said == "HIGH_RISK" || (said == "" && high <= score < block)
            || (!BlocksUnknown(c) && (said == "UNKNOWN" || (said == "" && score < 0 && score < block && score < high)))
            || said !in {"", "SANCTIONED", "HIGH_RISK", "UNKNOWN", "CLEAN"}
    ensures DecideVendorUnreachable() == "MANUAL_REVIEW"
  {
  }

  /** The severity of an exposure: four levels, the lowest for clean ones and for names not known. */
  lemma SeverityExactly(exposure: string)
    ensures var severity := SeverityFor(exposure);
            && (severity == "critical" <==> exposure == "SANCTIONED") && (severity == "high" <==> exposure == "HIGH_RISK")
            && (severity == "medium" <==> exposure == "UNKNOWN")
            && (severity == "low" <==> exposure !in {"SANCTIONED", "HIGH_RISK", "UNKNOWN"})
  {
    assert "critical"[0] == 'c' && "high"[0] == 'h' && "medium"[0] == 'm' && "low"[0] == 'l';
  }

  /** For answers without an exposure, a higher non-negative score is never treated more leniently. */
  lemma DecisionMonotone(c: Config, s1: int, s2: int, chain: string)
    requires 0 <= s1 <= s2
    ensures Strictness(Decide(c, Exposure(c, "", s1, chain))) <= Strictness(Decide(c, Exposure(c, "", s2, chain)))
  {
  }

  // -------------------------------------------------------------- environment

  const MAX_INT := 0x7FFF_FFFF_FFFF_FFFF
  const MIN_INT := -0x8000_0000_0000_0000

  function Digits(s: string): Option<nat>
    decreases |s|
  {
    if s == "" then None
    else
      var d := s[|s| - 1];
      if !('0' <= d <= '9') then None
      else if |s| == 1 then Some((d - '0') as nat)
      else match Digits(s[..|s| - 1])
        case None => None
        case Some(n) => Some(10 * n + (d - '0') as nat)
  }

  /** strconv.Atoi on a 64-bit platform: None stands for an error. */
  function Atoi(s: string): Option<int> {
    var signed := s != "" && s[0] in {'+', '-'};
    match Digits(if signed then s[1..] else s)
    case None => None
    case Some(n) =>
      var v: int := if signed && s[0] == '-' then -(n as int) else n;
      if MIN_INT <= v <= MAX_INT then Some(v) else None
  }

  datatype Pair = Pair(key: string, val: string)

  /** An environment string split at its first '='. */
  function KeyValue(kv: string): Option<Pair> {
    match Index(kv, '=')
    case None => None
    case Some(i) => Some(Pair(kv[..i], kv[i + 1..]))
  }

  /** os.Getenv: "" when unset. */
  function Getenv(env: seq<string>, key: string): string {
    if env == [] then ""
    else
      var p := KeyValue(env[0]);
      if p.Some? && p.value.key == key then p.value.val else Getenv(env[1..], key)
  }

  function EnvInt(env: seq<string>, key: string, default: int): int {
    var v := Getenv(env, key);
    if v == "" then default
    else match Atoi(v) case None => default case Some(n) => n
  }

  function EnvOr(env: seq<string>, key: string, default: string): string {
    var v := Getenv(env, key);
    if v == "" then default else v
  }

  const BLOCK_PREFIX := "BLOCK_THRESHOLD_"
  const HIGH_RISK_PREFIX := "HIGH_RISK_THRESHOLD_"

  datatype Field = BlockField | HighRiskField
  datatype Override = Override(field: Field, chain: string, value: int)

  /** The per-chain override an environment string carries, if any. */
  function ParseOverride(lower: CaseTable, kv: string): Option<Override> {
    if !(BLOCK_PREFIX <= kv) && !(HIGH_RISK_PREFIX <= kv) then None
    else match KeyValue(kv)
      case None => None
      case Some(p) =>
        match Atoi(p.val)
        case None => None
        case Some(n) =>
          if BLOCK_PREFIX <= p.key then
            Some(Override(BlockField, ToLower(lower, p.key[|BLOCK_PREFIX|..]), n))
          else if HIGH_RISK_PREFIX <= p.key then
            Some(Override(HighRiskField, ToLower(lower, p.key[|HIGH_RISK_PREFIX|..]), n))
          else None
  }

  function ApplyOverride(m: map<string, ChainThreshold>, o: Override): map<string, ChainThreshold> {
    var c := if o.chain in m then m[o.chain] else ChainThreshold(0, 0);
    m[o.chain := if o.field.BlockField? then c.(block := o.value) else c.(highRisk := o.value)]
  }

  function ParseAll(lower: CaseTable, env: seq<string>): seq<Option<Override>> {
    seq(|env|, i requires 0 <= i < |env| => ParseOverride(lower, env[i]))
  }

  /** The per-chain table that a scan of the overrides, in order, leaves behind. */
  function Scan(os: seq<Option<Override>>): map<string, ChainThreshold> {
    if os == [] then map[]
    else
      var m := Scan(os[..|os| - 1]);
      match os[|os| - 1]
      case None => m
      case Some(o) => ApplyOverride(m, o)
  }

  function SanitizeUnknown(d: string): string {
    if d != MANUAL_REVIEW && d != BLOCK then MANUAL_REVIEW else d
  }

  function Reload(c: Config, env: seq<string>): Config {
    Config(EnvInt(env, "BLOCK_THRESHOLD", c.block),
           EnvInt(env, "HIGH_RISK_THRESHOLD", c.highRisk),
           SanitizeUnknown(EnvOr(env, "UNKNOWN_DECISION", c.unknownDecision)),
           Scan(ParseAll(c.lower, env)), c.lower)
  }

  function WithOverride(c: Config, chain: string, block: int, highRisk: int): Config {
    c.(perChain := c.perChain[ToLower(c.lower, chain) := ChainThreshold(block, highRisk)])
  }

  class Thresholds {
    var block: int
    var highRisk: int
    var unknownDecision: string
    var perChain: map<string, ChainThreshold>
    const lower: CaseTable

    function Value(): Config
      reads this
    {
      Config(block, highRisk, unknownDecision, perChain, lower)
    }

    /** NewThresholds. */
    constructor (block: int, highRisk: int, unknownDecision: string, lower: CaseTable)
      ensures Value() == Config(block, highRisk, SanitizeUnknown(unknownDecision), map[], lower)
      ensures this.unknownDecision == if unknownDecision == "BLOCK" then "BLOCK" else "MANUAL_REVIEW"
    {
      this.block, this.highRisk, this.lower, perChain := block, highRisk, lower, map[];
      this.unknownDecision := SanitizeUnknown(unknownDecision);
    }

    method ReloadFromEnv(env: seq<string>)
      modifies this
      ensures Value() == Reload(old(Value()), env)
    {
      block := EnvInt(env, "BLOCK_THRESHOLD", block);
      highRisk := EnvInt(env, "HIGH_RISK_THRESHOLD", highRisk);
      unknownDecision := EnvOr(env, "UNKNOWN_DECISION", unknownDecision);
      if unknownDecision != MANUAL_REVIEW && unknownDecision != BLOCK {
        unknownDecision := MANUAL_REVIEW;
      }
      perChain := map[];
      ghost var globals := Value();
      for i := 0 to |env|
        invariant Value() == globals.(perChain := Scan(ParseAll(lower, env[..i])))
      {
        ghost var os := ParseAll(lower, env[..i + 1]);
        assert os[..i] == ParseAll(lower, env[..i]) && os[i] == ParseOverride(lower, env[i]);
        match ParseOverride(lower, env[i])
        case None => continue;
        case Some(Override(field, chain, n)) =>
          var c := if chain in perChain then perChain[chain] else ChainThreshold(0, 0);
          match field
          case BlockField => perChain := perChain[chain := c.(block := n)];
          case HighRiskField => perChain := perChain[chain := c.(highRisk := n)];
      }
      assert env[..|env|] == env;
    }

    method SetChainOverride(chain: string, block: int, highRisk: int)
      modifies this
      ensures Value() == WithOverride(old(Value()), chain, block, highRisk)
    {
      perChain := perChain[ToLower(lower, chain) := ChainThreshold(block, highRisk)];
    }
  }

  // ------------------------------------------------------ what a reload means

  /** os[i] is an override of this field of this chain. */
  predicate Sets(os: seq<Option<Override>>, i: int, field: Field, chain: string) {
    0 <= i < |os| && os[i].Some? && os[i].value.field == field && os[i].value.chain == chain
  }

  ghost predicate SetsLast(os: seq<Option<Override>>, i: int, field: Field, chain: string) {
    Sets(os, i, field, chain) && forall j :: i < j < |os| ==> !Sets(os, j, field, chain)
  }

  /** What the scan records for one field of one chain; 0 when nothing, as thresholdsFor reads it. */
  function Recorded(m: map<string, ChainThreshold>, field: Field, chain: string): int {
    if chain !in m then 0 else if field.BlockField? then m[chain].block else m[chain].highRisk
  }

  lemma ScanStep(os: seq<Option<Override>>, field: Field, chain: string)
    requires os != []
    ensures var n := |os| - 1;
            && Recorded(Scan(os), field, chain) ==
                 (if Sets(os, n, field, chain) then os[n].value.value else Recorded(Scan(os[..n]), field, chain))
            && (chain in Scan(os) <==> chain in Scan(os[..n]) || (os[n].Some? && os[n].value.chain == chain))
  {
  }

  lemma {:induction false} RowIffSet(os: seq<Option<Override>>, chain: string)
    ensures chain in Scan(os) <==> exists i, f :: Sets(os, i, f, chain)
  {
    if os != [] {
      var n := |os| - 1;
      ScanStep(os, BlockField, chain);
      RowIffSet(os[..n], chain);
      assert forall i, f :: 0 <= i < n ==> Sets(os[..n], i, f, chain) == Sets(os, i, f, chain);
      if chain in Scan(os[..n]) {
        var i, f :| Sets(os[..n], i, f, chain);
        assert Sets(os, i, f, chain);
      } else if os[n].Some? && os[n].value.chain == chain {
        assert Sets(os, n, os[n].value.field, chain);
      }
    }
  }

  /** The scan keeps, for each field of each chain, the value of the last string that sets it, and 0
      when none does. */
  lemma {:induction false} LastOverrideWins(os: seq<Option<Override>>, field: Field, chain: string)
    ensures forall i :: SetsLast(os, i, field, chain) ==> Recorded(Scan(os), field, chain) == os[i].value.value
    ensures (forall i :: !Sets(os, i, field, chain)) ==> Recorded(Scan(os), field, chain) == 0
  {
    if os != [] {
      var n := |os| - 1;
      ScanStep(os, field, chain);
      LastOverrideWins(os[..n], field, chain);
      assert forall i :: 0 <= i < n ==> Sets(os[..n], i, field, chain) == Sets(os, i, field, chain);
      if !Sets(os, n, field, chain) {
        assert forall i :: SetsLast(os, i, field, chain) ==> SetsLast(os[..n], i, field, chain);
      }
    }
  }

  /** Two overrides that set the same field of the same chain to different values. */
  ghost predicate Conflict(os: seq<Option<Override>>, i: int, j: int) {
    0 <= i < |os| && 0 <= j < |os| && os[i].Some? && os[j].Some? &&
    os[i].value.field == os[j].value.field && os[i].value.chain == os[j].value.chain &&
    os[i].value.value != os[j].value.value
  }

  ghost predicate ConflictFree(os: seq<Option<Override>>) {
    forall i, j :: !Conflict(os, i, j)
  }

  /** Every element of xs occurs in ys. */
  ghost predicate Within<T>(xs: seq<T>, ys: seq<T>) {
    forall i :: 0 <= i < |xs| ==> xs[i] in ys
  }

  lemma LastSetter(os: seq<Option<Override>>, field: Field, chain: string, i: int) returns (k: int)
    requires Sets(os, i, field, chain)
    ensures SetsLast(os, k, field, chain)
    decreases |os| - i
  {
    if SetsLast(os, i, field, chain) {
      k := i;
    } else {
      var j :| i < j < |os| && Sets(os, j, field, chain);
      k := LastSetter(os, field, chain, j);
    }
  }

  lemma SetterMoves(os: seq<Option<Override>>, ps: seq<Option<Override>>, field: Field, chain: string)
    requires Within(os, ps)
    ensures forall i :: Sets(os, i, field, chain) ==> exists j :: Sets(ps, j, field, chain)
  {
    forall i | Sets(os, i, field, chain) ensures exists j :: Sets(ps, j, field, chain) {
      var j :| 0 <= j < |ps| && ps[j] == os[i];
      assert Sets(ps, j, field, chain);
    }
  }

  lemma RecordedOrderFree(os: seq<Option<Override>>, ps: seq<Option<Override>>, field: Field, chain: string)
    requires Within(os, ps) && Within(ps, os) && ConflictFree(os)
    ensures chain in Scan(os) ==> chain in Scan(ps)
    ensures Recorded(Scan(os), field, chain) == Recorded(Scan(ps), field, chain)
  {
    LastOverrideWins(os, field, chain);
    LastOverrideWins(ps, field, chain);
    RowIffSet(os, chain);
    RowIffSet(ps, chain);
    SetterMoves(os, ps, BlockField, chain);
    SetterMoves(os, ps, HighRiskField, chain);
    SetterMoves(ps, os, field, chain);
    if i :| Sets(os, i, field, chain) {
      var k := LastSetter(os, field, chain, i);
      var j :| 0 <= j < |ps| && ps[j] == os[i];
      var l := LastSetter(ps, field, chain, j);
      var m :| 0 <= m < |os| && os[m] == ps[l];
      assert !Conflict(os, k, m);
    }
  }

  lemma ScanOrderFree(os: seq<Option<Override>>, ps: seq<Option<Override>>)
    requires Within(os, ps) && Within(ps, os) && ConflictFree(os)
    ensures Scan(os) == Scan(ps)
  {
    forall i, j ensures !Conflict(ps, i, j) {
      if 0 <= i < |ps| && 0 <= j < |ps| {
        var i' :| 0 <= i' < |os| && os[i'] == ps[i];
        var j' :| 0 <= j' < |os| && os[j'] == ps[j];
        assert !Conflict(os, i', j');
      }
    }
    forall chain ensures chain in Scan(os) <==> chain in Scan(ps) {
      RecordedOrderFree(os, ps, BlockField, chain);
      RecordedOrderFree(ps, os, BlockField, chain);
    }
    forall chain | chain in Scan(os) ensures Scan(os)[chain] == Scan(ps)[chain] {
      RecordedOrderFree(os, ps, BlockField, chain);
      RecordedOrderFree(os, ps, HighRiskField, chain);
    }
  }

  lemma SameElements(xs: seq<string>, ys: seq<string>, i: int) returns (j: int)
    requires multiset(xs) == multiset(ys) && 0 <= i < |xs|
    ensures 0 <= j < |ys| && ys[j] == xs[i]
  {
    assert xs[i] in multiset(ys);
    j :| 0 <= j < |ys| && ys[j] == xs[i];
  }

  lemma ParseAllMoves(lower: CaseTable, env: seq<string>, other: seq<string>)
    requires multiset(env) == multiset(other)
    ensures Within(ParseAll(lower, env), ParseAll(lower, other))
  {
    forall i | 0 <= i < |env| ensures ParseAll(lower, env)[i] in ParseAll(lower, other) {
      var j := SameElements(env, other, i);
      assert ParseAll(lower, other)[j] == ParseAll(lower, env)[i];
    }
  }

  ghost predicate DistinctKeys(env: seq<string>) {
    forall i, j :: 0 <= i < j < |env| && KeyValue(env[i]).Some? && KeyValue(env[j]).Some? ==>
      KeyValue(env[i]).value.key != KeyValue(env[j]).value.key
  }

  function MoveToEnd(env: seq<string>, i: nat): (r: seq<string>)
    requires i < |env|
    ensures multiset(r) == multiset(env)
  {
    assert env == env[..i] + [env[i]] + env[i + 1..];
    env[..i] + env[i + 1..] + [env[i]]
  }

  lemma {:induction false} GetenvMeaning(env: seq<string>, key: string)
    requires DistinctKeys(env)
    ensures forall i :: 0 <= i < |env| && KeyValue(env[i]).Some? && KeyValue(env[i]).value.key == key ==>
              Getenv(env, key) == KeyValue(env[i]).value.val
    ensures (forall i :: 0 <= i < |env| && KeyValue(env[i]).Some? ==> KeyValue(env[i]).value.key != key) ==>
              Getenv(env, key) == ""
  {
    if env != [] {
      assert forall i :: 0 <= i < |env| - 1 ==> env[1..][i] == env[i + 1];
      GetenvMeaning(env[1..], key);
      assert forall i :: 1 <= i < |env| ==> env[i] == env[1..][i - 1];
    }
  }

  lemma TwoOccurrences(xs: seq<string>, i: int, j: int)
    requires 0 <= i < j < |xs|
    ensures xs[i] == xs[j] ==> multiset(xs)[xs[i]] >= 2
  {
    assert xs == xs[..i] + [xs[i]] + xs[i + 1..j] + [xs[j]] + xs[j + 1..];
  }

  lemma OneOccurrence(env: seq<string>, i: int)
    requires DistinctKeys(env) && 0 <= i < |env| && KeyValue(env[i]).Some?
    ensures multiset(env)[env[i]] == 1
  {
    assert env == env[..i] + [env[i]] + env[i + 1..];
    assert forall k :: 0 <= k < i ==> env[..i][k] == env[k] != env[i];
    assert forall k :: i < k < |env| ==> env[i + 1..][k - i - 1] == env[k] != env[i];
    assert env[i] !in multiset(env[..i]) && env[i] !in multiset(env[i + 1..]);
  }

  lemma DistinctKeysOrderFree(env: seq<string>, other: seq<string>)
    requires multiset(env) == multiset(other) && DistinctKeys(env)
    ensures DistinctKeys(other)
  {
    forall i, j | 0 <= i < j < |other| && KeyValue(other[i]).Some? && KeyValue(other[j]).Some?
      ensures KeyValue(other[i]).value.key != KeyValue(other[j]).value.key
    {
      var i' := SameElements(other, env, i);
      var j' := SameElements(other, env, j);
      if i' == j' {
        TwoOccurrences(other, i, j);
        OneOccurrence(env, i');
      }
    }
  }

  lemma GetenvOrderFree(env: seq<string>, other: seq<string>, key: string)
    requires multiset(env) == multiset(other) && DistinctKeys(env)
    ensures Getenv(env, key) == Getenv(other, key)
  {
    DistinctKeysOrderFree(env, other);
    GetenvMeaning(env, key);
    GetenvMeaning(other, key);
    if i :| 0 <= i < |env| && KeyValue(env[i]).Some? && KeyValue(env[i]).value.key == key {
      var j := SameElements(env, other, i);
    } else {
      forall j | 0 <= j < |other| && KeyValue(other[j]).Some? ensures KeyValue(other[j]).value.key != key {
        var i := SameElements(other, env, j);
      }
    }
  }

  ghost predicate ReloadOrderFree(c: Config, env: seq<string>) {
    forall other :: multiset(other) == multiset(env) ==> Reload(c, other) == Reload(c, env)
  }

  lemma ConflictShows(lower: CaseTable, env: seq<string>, i: int, j: int)
    requires i < |env| && j < |env|
    ensures Conflict(ParseAll(lower, env), i, j) ==>
              Scan(ParseAll(lower, MoveToEnd(env, i))) != Scan(ParseAll(lower, MoveToEnd(env, j)))
  {
    if !Conflict(ParseAll(lower, env), i, j) { return; }
    var p1, p2 := ParseAll(lower, MoveToEnd(env, i)), ParseAll(lower, MoveToEnd(env, j));
    var o := ParseAll(lower, env)[i].value;
    assert p1[|env| - 1] == ParseAll(lower, env)[i] && p2[|env| - 1] == ParseAll(lower, env)[j];
    LastOverrideWins(p1, o.field, o.chain);
    LastOverrideWins(p2, o.field, o.chain);
    assert SetsLast(p1, |env| - 1, o.field, o.chain) && SetsLast(p2, |env| - 1, o.field, o.chain);
  }

  /** A reload does not depend on the order of the environment exactly when no two override strings,
      after lower-casing the chain, disagree. */
  lemma {:induction false} ReloadOrderFreeExactly(c: Config, env: seq<string>)
    requires DistinctKeys(env)
    ensures ReloadOrderFree(c, env) <==> ConflictFree(ParseAll(c.lower, env))
  {
    if ConflictFree(ParseAll(c.lower, env)) {
      forall other | multiset(other) == multiset(env) ensures Reload(c, other) == Reload(c, env) {
        ParseAllMoves(c.lower, env, other);
        ParseAllMoves(c.lower, other, env);
        ScanOrderFree(ParseAll(c.lower, env), ParseAll(c.lower, other));
        GetenvOrderFree(env, other, "BLOCK_THRESHOLD");
        GetenvOrderFree(env, other, "HIGH_RISK_THRESHOLD");
        GetenvOrderFree(env, other, "UNKNOWN_DECISION");
      }
    } else {
      var i, j :| Conflict(ParseAll(c.lower, env), i, j);
      ConflictShows(c.lower, env, i, j);
      assert Reload(c, MoveToEnd(env, i)) != Reload(c, MoveToEnd(env, j));
    }
  }

  /** Reloading again from the same environment changes nothing, and a reload forgets every chain
      override set before it. */
  lemma ReloadIdempotent(c: Config, env: seq<string>, chain: string, block: int, highRisk: int)
    ensures Reload(Reload(c, env), env) == Reload(c, env)
    ensures Reload(WithOverride(c, chain, block, highRisk), env) == Reload(c, env)
  {
  }

  /** After a reload the block and high-risk thresholds of a chain are its last override when that
      one is positive, and the global ones otherwise. */
  lemma EffectiveThresholds(c: Config, env: seq<string>, chain: string)
    ensures var r := Reload(c, env);
            var os := ParseAll(c.lower, env);
            && (forall i :: SetsLast(os, i, BlockField, ToLower(c.lower, chain)) ==>
                  ThresholdsFor(r, chain).0 == if os[i].value.value > 0 then os[i].value.value else r.block)
            && (forall i :: SetsLast(os, i, HighRiskField, ToLower(c.lower, chain)) ==>
                  ThresholdsFor(r, chain).1 == if os[i].value.value > 0 then os[i].value.value else r.highRisk)
            && ((forall i :: !Sets(os, i, BlockField, ToLower(c.lower, chain))) ==>
                  ThresholdsFor(r, chain).0 == r.block)
            && ((forall i :: !Sets(os, i, HighRiskField, ToLower(c.lower, chain))) ==>
                  ThresholdsFor(r, chain).1 == r.highRisk)
  {
    LastOverrideWins(ParseAll(c.lower, env), BlockField, ToLower(c.lower, chain));
    LastOverrideWins(ParseAll(c.lower, env), HighRiskField, ToLower(c.lower, chain));
  }

  /** After a reload, unknown exposure is blocked exactly when UNKNOWN_DECISION is the upper-case
      word BLOCK, or is unset and was BLOCK before; it is never allowed. */
  lemma UnknownDecisionAfterReload(c: Config, env: seq<string>)
    ensures Decide(Reload(c, env), UNKNOWN) == BLOCK <==>
            || Getenv(env, "UNKNOWN_DECISION") == BLOCK
            || (Getenv(env, "UNKNOWN_DECISION") == "" && c.unknownDecision == BLOCK)
    ensures Decide(Reload(c, env), UNKNOWN) != BLOCK ==> Decide(Reload(c, env), UNKNOWN) == MANUAL_REVIEW
  {
  }

  /** The README's lower-case spelling does not block. */
  lemma LowerCaseBlockIsIgnored(c: Config, env: seq<string>)
    requires Getenv(env, "UNKNOWN_DECISION") == "block"
    ensures Decide(Reload(c, env), UNKNOWN) == MANUAL_REVIEW
  {
  }

  // ------------------------------------------------------- numbers and their strings

  function StripZeros(s: string): string {
    if s != "" && s[0] == '0' then StripZeros(s[1..]) else s
  }

  /** The decimal numeral of n, with no zero in front; that of 0 is empty. */
  function Numeral(n: nat): string {
    if n == 0 then "" else Numeral(n / 10) + ['0' + (n % 10) as char]
  }

  /** The string is a numeral of n, with any number of zeros in front. */
  predicate IsNumeral(s: string, n: nat) {
    s != "" && StripZeros(s) == Numeral(n)
  }

  lemma {:induction false} StripZerosStep(s: string, d: char)
    ensures StripZeros(s + [d]) == if StripZeros(s) == "" && d == '0' then "" else StripZeros(s) + [d]
  {
    if s != "" && s[0] == '0' {
      assert (s + [d])[1..] == s[1..] + [d];
      StripZerosStep(s[1..], d);
    } else if s == "" {
      assert s + [d] == [d];
    }
  }

  lemma NumeralStep(m: nat, d: nat)
    requires d < 10
    ensures Numeral(10 * m + d) == if m == 0 && d == 0 then "" else Numeral(m) + ['0' + d as char]
  {
    assert (10 * m + d) / 10 == m && (10 * m + d) % 10 == d;
  }

  lemma {:induction false} NumeralDigits(n: nat)
    ensures forall i :: 0 <= i < |Numeral(n)| ==> '0' <= Numeral(n)[i] <= '9'
    ensures n > 0 ==> Numeral(n) != ""
  {
    if n > 0 { NumeralDigits(n / 10); }
  }

  lemma {:induction false} NumeralUnique(m: nat, n: nat)
    ensures Numeral(m) == Numeral(n) <==> m == n
  {
    NumeralDigits(m);
    NumeralDigits(n);
    if m > 0 && n > 0 {
      var a, b := Numeral(m), Numeral(n);
      NumeralUnique(m / 10, n / 10);
      assert a[..|a| - 1] == Numeral(m / 10) && b[..|b| - 1] == Numeral(n / 10);
      assert a[|a| - 1] == '0' + (m % 10) as char && b[|b| - 1] == '0' + (n % 10) as char;
    }
  }

  predicate AllDigits(s: string) {
    forall i :: 0 <= i < |s| ==> '0' <= s[i] <= '9'
  }

  lemma {:induction false} DigitsReadsDigits(s: string)
    ensures Digits(s).Some? <==> s != "" && AllDigits(s)
  {
    if |s| > 1 { DigitsReadsDigits(s[..|s| - 1]); }
  }

  lemma {:induction false} DigitsIsNumeral(s: string)
    ensures Digits(s).Some? ==> IsNumeral(s, Digits(s).value)
  {
    if Digits(s).Some? {
      var t, d := s[..|s| - 1], s[|s| - 1];
      assert s == t + [d];
      StripZerosStep(t, d);
      NumeralStep(if t == "" then 0 else Digits(t).value, (d - '0') as nat);
      if t != "" { DigitsIsNumeral(t); }
    }
  }

  lemma {:induction false} StripZerosDigits(s: string)
    ensures AllDigits(StripZeros(s)) <==> AllDigits(s)
  {
    if s != "" && s[0] == '0' {
      StripZerosDigits(s[1..]);
      assert forall i :: 1 <= i < |s| ==> s[i] == s[1..][i - 1];
    }
  }

  lemma DigitsExactly(s: string, n: nat)
    ensures Digits(s) == Some(n) <==> IsNumeral(s, n)
  {
    DigitsReadsDigits(s);
    DigitsIsNumeral(s);
    StripZerosDigits(s);
    NumeralDigits(n);
    if Digits(s).Some? { NumeralUnique(Digits(s).value, n); }
  }

  lemma NumeralHasNoSign(s: string, n: nat)
    requires s != "" && s[0] in {'+', '-'}
    ensures !IsNumeral(s, n)
  {
    NumeralDigits(n);
  }

  /** Which strings strconv.Atoi reads, and as what: an optional sign and decimal digits, leading zeros
      allowed, within 64 bits. */
  lemma AtoiExactly(s: string, v: int)
    ensures Atoi(s) == Some(v) <==>
            && -9223372036854775808 <= v <= 9223372036854775807
            && (|| (v >= 0 && IsNumeral(s, v))
                || (v >= 0 && s != "" && s[0] == '+' && IsNumeral(s[1..], v))
                || (v <= 0 && s != "" && s[0] == '-' && IsNumeral(s[1..], -v)))
  {
    var signed := s != "" && s[0] in {'+', '-'};
    var rest := if signed then s[1..] else s;
    var n := if v < 0 then -v else v;
    DigitsExactly(rest, n);
    if signed { NumeralHasNoSign(s, n); }
    if Digits(rest).Some? { DigitsExactly(rest, Digits(rest).value); }
  }

  // ------------------------------------------- what the strings of an environment mean

  /** The variables that override a field for one chain start with this. */
  function Prefix(field: Field): string {
    if field.BlockField? then "BLOCK_THRESHOLD_" else "HIGH_RISK_THRESHOLD_"
  }

  /** The string assigns val to the variable that overrides this field for the named chain. */
  predicate Assigns(kv: string, field: Field, name: string, val: string) {
    '=' !in name && kv == Prefix(field) + name + "=" + val
  }

  lemma KeyValueOf(key: string, val: string)
    requires '=' !in key
    ensures KeyValue(key + "=" + val) == Some(Pair(key, val))
  {
    var kv := key + "=" + val;
    assert kv[..|key|] == key && kv[|key|] == '=' && kv[|key| + 1..] == val;
    IndexUnique(kv, '=', |key|);
  }

  lemma KeyValueParts(kv: string)
    requires KeyValue(kv).Some?
    ensures kv == KeyValue(kv).value.key + "=" + KeyValue(kv).value.val && '=' !in KeyValue(kv).value.key
  {
  }

  lemma PrefixHasNoEquals(field: Field)
    ensures '=' !in Prefix(field)
  {
  }

  lemma PrefixesDiffer(s: string)
    ensures !("BLOCK_THRESHOLD_" <= s && "HIGH_RISK_THRESHOLD_" <= s)
  {
    assert "BLOCK_THRESHOLD_"[0] == 'B' && "HIGH_RISK_THRESHOLD_"[0] == 'H';
  }

  /** A string of this form overrides that field of that chain, if its value is a number, and otherwise nothing. */
  lemma AssignmentParses(lower: CaseTable, kv: string, field: Field, name: string, val: string)
    requires Assigns(kv, field, name, val)
    ensures ParseOverride(lower, kv) == match Atoi(val)
                                        case None => None
                                        case Some(n) => Some(Override(field, ToLower(lower, name), n))
  {
    var key := Prefix(field) + name;
    PrefixHasNoEquals(field);
    KeyValueOf(key, val);
    assert key[|Prefix(field)|..] == name && Prefix(field) <= key && Prefix(field) <= kv;
    PrefixesDiffer(key);
  }

  /** No other string overrides anything. */
  lemma OverrideIsAssignment(lower: CaseTable, kv: string) returns (name: string, val: string)
    requires ParseOverride(lower, kv).Some?
    ensures var o := ParseOverride(lower, kv).value;
            Assigns(kv, o.field, name, val) && Atoi(val) == Some(o.value) && ToLower(lower, name) == o.chain
  {
    KeyValueParts(kv);
    var p := KeyValue(kv).value;
    PrefixesDiffer(p.key);
    var field := ParseOverride(lower, kv).value.field;
    name, val := p.key[|Prefix(field)|..], p.val;
    assert p.key == Prefix(field) + name;
  }

  /** Of the strings of an environment, env[i] is the last that overrides this field for a chain with this
      lower-case name, and it sets it to n. */
  ghost predicate LastAssignment(lower: CaseTable, env: seq<string>, i: int, field: Field, chain: string, n: int) {
    && 0 <= i < |env|
    && (exists name, val :: Assigns(env[i], field, name, val) && Atoi(val) == Some(n) && ToLower(lower, name) == chain)
    && forall j, name, val :: i < j < |env| && Assigns(env[j], field, name, val) && ToLower(lower, name) == chain ==>
         Atoi(val).None?
  }

  ghost predicate NoAssignment(lower: CaseTable, env: seq<string>, field: Field, chain: string) {
    forall j, name, val :: 0 <= j < |env| && Assigns(env[j], field, name, val) && ToLower(lower, name) == chain ==>
      Atoi(val).None?
  }

  lemma SetsIffAssigned(lower: CaseTable, env: seq<string>, i: int, field: Field, chain: string)
    requires 0 <= i < |env|
    ensures Sets(ParseAll(lower, env), i, field, chain) ==>
              exists name, val :: Assigns(env[i], field, name, val) && ToLower(lower, name) == chain &&
                                  Atoi(val) == Some(ParseAll(lower, env)[i].value.value)
    ensures forall name, val :: Assigns(env[i], field, name, val) && ToLower(lower, name) == chain && Atoi(val).Some? ==>
              Sets(ParseAll(lower, env), i, field, chain) && ParseAll(lower, env)[i].value.value == Atoi(val).value
  {
    if Sets(ParseAll(lower, env), i, field, chain) {
      var name, val := OverrideIsAssignment(lower, env[i]);
    }
    forall name, val | Assigns(env[i], field, name, val) && ToLower(lower, name) == chain && Atoi(val).Some?
      ensures Sets(ParseAll(lower, env), i, field, chain) && ParseAll(lower, env)[i].value.value == Atoi(val).value
    {
      AssignmentParses(lower, env[i], field, name, val);
    }
  }

  lemma LastAssignmentSetsLast(lower: CaseTable, env: seq<string>, i: int, field: Field, chain: string, n: int)
    requires LastAssignment(lower, env, i, field, chain, n)
    ensures SetsLast(ParseAll(lower, env), i, field, chain) && ParseAll(lower, env)[i].value.value == n
  {
    SetsIffAssigned(lower, env, i, field, chain);
    forall j | i < j < |env| ensures !Sets(ParseAll(lower, env), j, field, chain) {
      SetsIffAssigned(lower, env, j, field, chain);
    }
  }

  /** The thresholds in force for a chain after a reload, told of the strings of the environment: the last
      BLOCK_THRESHOLD_<chain> with a number gives the block threshold, the last HIGH_RISK_THRESHOLD_<chain>
      the other, whatever the case of the letters, if the number is positive; and otherwise the global one. */
  lemma ThresholdsFromStrings(c: Config, env: seq<string>, chain: string)
    ensures var (r, name) := (Reload(c, env), ToLower(c.lower, chain));
            && (forall i, n :: LastAssignment(c.lower, env, i, BlockField, name, n) ==>
                  ThresholdsFor(r, chain).0 == if n > 0 then n else r.block)
            && (forall i, n :: LastAssignment(c.lower, env, i, HighRiskField, name, n) ==>
                  ThresholdsFor(r, chain).1 == if n > 0 then n else r.highRisk)
            && (NoAssignment(c.lower, env, BlockField, name) ==> ThresholdsFor(r, chain).0 == r.block)
            && (NoAssignment(c.lower, env, HighRiskField, name) ==> ThresholdsFor(r, chain).1 == r.highRisk)
  {
    var name := ToLower(c.lower, chain);
    EffectiveThresholds(c, env, chain);
    forall i, field, n | LastAssignment(c.lower, env, i, field, name, n)
      ensures SetsLast(ParseAll(c.lower, env), i, field, name) && ParseAll(c.lower, env)[i].value.value == n
    {
      LastAssignmentSetsLast(c.lower, env, i, field, name, n);
    }
    forall i, field | NoAssignment(c.lower, env, field, name) ensures !Sets(ParseAll(c.lower, env), i, field, name) {
      if 0 <= i < |env| { SetsIffAssigned(c.lower, env, i, field, name); }
    }
  }

  /** The environment gives this variable this value. */
  ghost predicate HasVariable(env: seq<string>, key: string, val: string) {
    exists i :: 0 <= i < |env| && env[i] == key + "=" + val
  }

  lemma GetenvExactly(env: seq<string>, key: string)
    requires DistinctKeys(env) && '=' !in key
    ensures forall val :: HasVariable(env, key, val) ==> Getenv(env, key) == val
    ensures (forall val :: !HasVariable(env, key, val)) ==> Getenv(env, key) == ""
  {
    GetenvMeaning(env, key);
    forall val | HasVariable(env, key, val) ensures Getenv(env, key) == val {
      var i :| 0 <= i < |env| && env[i] == key + "=" + val;
      KeyValueOf(key, val);
    }
    if forall val :: !HasVariable(env, key, val) {
      forall i | 0 <= i < |env| && KeyValue(env[i]).Some? ensures KeyValue(env[i]).value.key != key {
        KeyValueParts(env[i]);
        assert KeyValue(env[i]).value.key == key ==> HasVariable(env, key, KeyValue(env[i]).value.val);
      }
    }
  }

  function NumberOr(val: string, default: int): int {
    match Atoi(val) case None => default case Some(n) => n
  }

  /** Which variable feeds which global setting: a number replaces the threshold, anything else leaves it;
      the decision for the unknown is to block exactly when the variable says BLOCK, or is empty or unset and
      it was to block before. */
  lemma GlobalsFromStrings(c: Config, env: seq<string>)
    requires DistinctKeys(env)
    ensures Reload(c, env).unknownDecision in {"BLOCK", "MANUAL_REVIEW"}
    ensures var r := Reload(c, env);
            && (forall val :: HasVariable(env, "BLOCK_THRESHOLD", val) ==> r.block == NumberOr(val, c.block))
            && ((forall val :: !HasVariable(env, "BLOCK_THRESHOLD", val)) ==> r.block == c.block)
            && (forall val :: HasVariable(env, "HIGH_RISK_THRESHOLD", val) ==> r.highRisk == NumberOr(val, c.highRisk))
            && ((forall val :: !HasVariable(env, "HIGH_RISK_THRESHOLD", val)) ==> r.highRisk == c.highRisk)
            && (forall val :: HasVariable(env, "UNKNOWN_DECISION", val) ==>
                  (BlocksUnknown(r) <==> val == "BLOCK" || (val == "" && BlocksUnknown(c))))
            && ((forall val :: !HasVariable(env, "UNKNOWN_DECISION", val)) ==> (BlocksUnknown(r) <==> BlocksUnknown(c)))
  {
    GetenvExactly(env, "BLOCK_THRESHOLD");
    GetenvExactly(env, "HIGH_RISK_THRESHOLD");
    GetenvExactly(env, "UNKNOWN_DECISION");
  }

  /** An override set by hand holds for every spelling of its chain, field by field where it is positive, and
      for no other chain. */
  lemma OverrideTakesEffect(c: Config, chain: string, block: int, highRisk: int, other: string)
    ensures var (t, before) := (ThresholdsFor(WithOverride(c, chain, block, highRisk), other), ThresholdsFor(c, other));
            if ToLower(c.lower, other) == ToLower(c.lower, chain) then
              t == (if block > 0 then block else c.block, if highRisk > 0 then highRisk else c.highRisk)
            else t == before
  {
  }
}
