/** Which detected values a policy reports, how it handles them, and the text it
    leaves. (engine/data_protection.py) */
module DataProtection {
  import opened Text
  import opened Splicing

  datatype Category = Pii | IpAddresses

  datatype Rule = Email | Phone | Ssn | Passport | Medical | Financial | Names | Ipv4 | Ipv6 | Cidr
  {
    function Category(): Category {
      if Ipv4? || Ipv6? || Cidr? then IpAddresses else Pii
    }

    function Placeholder(): string {
      match this
      case Email => "[PII:EMAIL]"
      case Phone => "[PII:PHONE]"
      case Ssn => "[PII:SSN]"
      case Passport => "[PII:PASSPORT]"
      case Medical => "[PII:MEDICAL]"
      case Financial => "[PII:FINANCIAL]"
      case Names => "[PII:NAME]"
      case Ipv4 => "[IP:IPV4]"
      case Ipv6 => "[IP:IPV6]"
      case Cidr => "[IP:CIDR]"
    }
  }

  /** The rules in the order their detectors are run. */
  const RULES := [Email, Phone, Ssn, Passport, Medical, Financial, Names, Ipv4, Ipv6, Cidr]

  datatype Detection = Off | Warn | Block
  datatype Handling = Preserve | Redact | Replace

  datatype Match = Match(rule: Rule, start: nat, end: nat, value: string, confidence: real)

  datatype ClassPolicy = ClassPolicy(enabled: bool, detection: Option<Detection>, handling: Option<Handling>,
                                     confidence: Option<real>)

  datatype CategoryPolicy = CategoryPolicy(detection: Detection, handling: Handling, confidence: Option<real>,
                                           classes: map<Rule, ClassPolicy>, preserveList: seq<string>,
                                           defaultAction: Option<Handling>)
  {
    function Class(rule: Rule): ClassPolicy {
      if rule in classes then classes[rule] else ClassPolicy(true, None, None, None)
    }
  }

  datatype Exception = Exception(category: Category, rule: Option<Rule>, value: Option<string>, scope: string)

  /** Address arithmetic and file-name patterns are the standard library's. */
  datatype Oracles = Oracles(inRange: (string, seq<string>) -> bool, globs: (string, string) -> bool)

  datatype Policy = Policy(enabled: bool, categories: map<Category, CategoryPolicy>, exceptions: seq<Exception>)
  {
    function Of(category: Category): CategoryPolicy {
      if category in categories then categories[category] else CategoryPolicy(Off, Redact, None, map[], [], None)
    }

    predicate Active() {
      enabled && exists c :: c in categories && categories[c].detection != Off
    }

    predicate RuleEnabled(rule: Rule) {
      var category := Of(rule.Category());
      && category.detection != Off && category.Class(rule).enabled
      && category.Class(rule).detection.GetOr(category.detection) != Off
    }

    function Threshold(rule: Rule): real {
      var category := Of(rule.Category());
      if category.Class(rule).confidence.Some? then category.Class(rule).confidence.value
      else if category.confidence.Some? then category.confidence.value
      else if rule.Category().Pii? then 0.7 else 0.0
    }
  }

  predicate ScopeMatches(scope: string, path: Option<string>, oracles: Oracles) {
    if path.None? then scope == "*" || scope == "**" else oracles.globs(path.value, scope)
  }

  predicate Excepts(e: Exception, m: Match, path: Option<string>, oracles: Oracles) {
    && e.category == m.rule.Category()
    && (e.rule.Some? ==> e.rule.value == m.rule)
    && (e.value.Some? ==> e.value.value == m.value)
    && ScopeMatches(e.scope, path, oracles)
  }

  datatype Finding = Finding(rule: Rule, value: string, line: nat, start: nat, end: nat, confidence: real,
                             detection: Detection, handling: Handling, suppressed: bool)
  {
    predicate Handled() {
      !suppressed && handling != Preserve
    }

    function RedactedValue(): string {
      if handling == Replace then rule.Placeholder()
      else if rule.Category().Pii? then "[REDACTED:pii]" else "[REDACTED:ip_addresses]"
    }
  }

  function Newlines(s: string): nat {
    if s == "" then 0 else (if s[0] == '\n' then 1 else 0) + Newlines(s[1..])
  }

  function LineOf(text: string, offset: nat): nat {
    Newlines(Take(text, offset)) + 1
  }

  /** An address on the preserve list is preserved; any other follows the category's
      default action when there is one. */
  function IpHandling(value: string, handling: Handling, category: CategoryPolicy, oracles: Oracles): Handling {
    if category.preserveList != [] && oracles.inRange(value, category.preserveList) then Preserve
    else category.defaultAction.GetOr(handling)
  }

  function Resolve(policy: Policy, m: Match, text: string, path: Option<string>, oracles: Oracles): Finding {
    var category := policy.Of(m.rule.Category());
    var detection := category.Class(m.rule).detection.GetOr(category.detection);
    var plain := category.Class(m.rule).handling.GetOr(category.handling);
    var handling := if m.rule.Category().IpAddresses? then IpHandling(m.value, plain, category, oracles) else plain;
    Finding(m.rule, m.value, LineOf(text, m.start), m.start, m.end, m.confidence, detection, handling,
            exists i :: 0 <= i < |policy.exceptions| && Excepts(policy.exceptions[i], m, path, oracles))
  }

  // ---- Which matches are kept ----

  predicate OverlapsSpan(m: Match, c: Match) {
    m.start < c.end && m.end > c.start
  }

  predicate Overlaps(m: Match, covered: seq<Match>) {
    exists i :: 0 <= i < |covered| && OverlapsSpan(m, covered[i])
  }

  /** What the detectors found: every match carries its own rule. */
  predicate Tagged(found: map<Rule, seq<Match>>) {
    forall r, i :: r in found && 0 <= i < |found[r]| ==> found[r][i].rule == r
  }

  function Found(found: map<Rule, seq<Match>>, rule: Rule): seq<Match> {
    if rule in found then found[rule] else []
  }

  predicate KeptRange(policy: Policy, m: Match) {
    policy.RuleEnabled(Cidr) && m.confidence >= policy.Threshold(Cidr)
  }

  predicate KeptOther(policy: Policy, covered: seq<Match>, rule: Rule, m: Match) {
    policy.RuleEnabled(rule) && !Overlaps(m, covered) && m.confidence >= policy.Threshold(rule)
  }

  function KeepRanges(policy: Policy, hits: seq<Match>): seq<Match>
    decreases |hits|
  {
    if hits == [] then []
    else
      var n := |hits| - 1;
      KeepRanges(policy, hits[..n]) + (if KeptRange(policy, hits[n]) then [hits[n]] else [])
  }

  function KeepOthers(policy: Policy, covered: seq<Match>, rule: Rule, hits: seq<Match>): seq<Match>
    decreases |hits|
  {
    if hits == [] then []
    else
      var n := |hits| - 1;
      KeepOthers(policy, covered, rule, hits[..n]) + (if KeptOther(policy, covered, rule, hits[n]) then [hits[n]] else [])
  }

  function KeepRules(policy: Policy, covered: seq<Match>, found: map<Rule, seq<Match>>, rules: seq<Rule>): seq<Match>
    decreases |rules|
  {
    if rules == [] then []
    else
      var n := |rules| - 1;
      KeepRules(policy, covered, found, rules[..n])
      + (if rules[n] == Cidr then [] else KeepOthers(policy, covered, rules[n], Found(found, rules[n])))
  }

  /** The matches a scan keeps: the ranges first, and no match inside a kept range. */
  function ScanMatches(policy: Policy, found: map<Rule, seq<Match>>): seq<Match> {
    var covered := KeepRanges(policy, Found(found, Cidr));
    covered + KeepRules(policy, covered, found, RULES)
  }

  /** What a scan reports. */
  function Findings(policy: Policy, text: string, path: Option<string>, found: map<Rule, seq<Match>>, oracles: Oracles)
    : seq<Finding>
  {
    if !policy.Active() || text == "" then []
    else SortByPlace(ResolveAll(policy, ScanMatches(policy, found), text, path, oracles))
  }

  method Scan(policy: Policy, text: string, path: Option<string>, found: map<Rule, seq<Match>>, oracles: Oracles)
    returns (findings: seq<Finding>, redacted: string)
    ensures findings == Findings(policy, text, path, found, oracles)
    ensures redacted == Splice(text, LatestFirst(Patches(findings)))
  {
    hide SortByPlace, ResolveAll, KeepRules, KeepRanges, Policy.Active;
    if !policy.Active() || text == "" {
      assert Patches([]) == [] && LatestFirst([]) == [] && Splice(text, []) == text;
      return [], text;
    }
    var covered := ScanRanges(policy, Found(found, Cidr));
    var others := ScanOthers(policy, covered, found, RULES);
    findings := SortByPlace(ResolveAll(policy, covered + others, text, path, oracles));
    redacted := ApplyRedactions(text, findings);
  }

  method ScanRanges(policy: Policy, hits: seq<Match>) returns (matches: seq<Match>)
    ensures matches == KeepRanges(policy, hits)
  {
    hide Policy.RuleEnabled, Policy.Threshold;
    matches := [];
    var i := 0;
    while i < |hits|
      invariant i <= |hits|
      invariant matches == KeepRanges(policy, hits[..i])
    {
      if policy.RuleEnabled(Cidr) && !(hits[i].confidence < policy.Threshold(Cidr)) {
        matches := matches + [hits[i]];
      }
      i := i + 1;
      assert hits[..i][..i - 1] == hits[..i - 1];
    }
    assert hits[..i] == hits;
  }

  method ScanOthers(policy: Policy, covered: seq<Match>, found: map<Rule, seq<Match>>, rules: seq<Rule>)
    returns (matches: seq<Match>)
    ensures matches == KeepRules(policy, covered, found, rules)
  {
    matches := [];
    var k := 0;
    while k < |rules|
      invariant k <= |rules|
      invariant matches == KeepRules(policy, covered, found, rules[..k])
    {
      var rule := rules[k];
      if rule != Cidr {
        var kept := ScanRule(policy, covered, rule, Found(found, rule));
        matches := matches + kept;
      }
      k := k + 1;
      assert rules[..k][..k - 1] == rules[..k - 1];
    }
    assert rules[..k] == rules;
  }

  /** One rule other than the ranges; one the policy does not enable is not run. */
  method ScanRule(policy: Policy, covered: seq<Match>, rule: Rule, hits: seq<Match>) returns (matches: seq<Match>)
    ensures matches == KeepOthers(policy, covered, rule, hits)
  {
    hide Policy.RuleEnabled, Policy.Threshold, Overlaps;
    matches := [];
    if !policy.RuleEnabled(rule) {
      DisabledKeepsNone(policy, covered, rule, hits);
      return;
    }
    var i := 0;
    while i < |hits|
      invariant i <= |hits|
      invariant matches == KeepOthers(policy, covered, rule, hits[..i])
    {
      if !Overlaps(hits[i], covered) && !(hits[i].confidence < policy.Threshold(rule)) {
        matches := matches + [hits[i]];
      }
      i := i + 1;
      assert hits[..i][..i - 1] == hits[..i - 1];
    }
    assert hits[..i] == hits;
  }

  lemma {:induction false} DisabledKeepsNone(policy: Policy, covered: seq<Match>, rule: Rule, hits: seq<Match>)
    requires !policy.RuleEnabled(rule)
    ensures KeepOthers(policy, covered, rule, hits) == []
    decreases |hits|
  {
    if hits != [] {
      DisabledKeepsNone(policy, covered, rule, hits[..|hits| - 1]);
    }
  }

  lemma {:induction false} KeepRangesMembers(policy: Policy, hits: seq<Match>, m: Match)
    ensures m in KeepRanges(policy, hits) <==> m in hits && KeptRange(policy, m)
    decreases |hits|
  {
    hide KeptRange;
    if hits != [] {
      var n := |hits| - 1;
      KeepRangesMembers(policy, hits[..n], m);
      assert hits == hits[..n] + [hits[n]];
    }
  }

  lemma {:induction false} KeepOthersMembers(policy: Policy, covered: seq<Match>, rule: Rule, hits: seq<Match>, m: Match)
    ensures m in KeepOthers(policy, covered, rule, hits) <==> m in hits && KeptOther(policy, covered, rule, m)
    decreases |hits|
  {
    hide KeptOther;
    if hits != [] {
      var n := |hits| - 1;
      KeepOthersMembers(policy, covered, rule, hits[..n], m);
      assert hits == hits[..n] + [hits[n]];
    }
  }

  lemma {:induction false} KeepRulesMembers(policy: Policy, covered: seq<Match>, found: map<Rule, seq<Match>>,
                                            rules: seq<Rule>, m: Match)
    requires Tagged(found)
    ensures m in KeepRules(policy, covered, found, rules)
            <==> m.rule in rules && m.rule != Cidr && m in Found(found, m.rule) && KeptOther(policy, covered, m.rule, m)
    decreases |rules|
  {
    hide KeptOther, KeepOthers;
    if rules != [] {
      var n := |rules| - 1;
      KeepRulesMembers(policy, covered, found, rules[..n], m);
      KeepOthersMembers(policy, covered, rules[n], Found(found, rules[n]), m);
      assert rules == rules[..n] + [rules[n]];
    }
  }

  lemma EveryRule(r: Rule)
    ensures r in RULES
  {
    match r
    case Email => assert RULES[0] == r;
    case Phone => assert RULES[1] == r;
    case Ssn => assert RULES[2] == r;
    case Passport => assert RULES[3] == r;
    case Medical => assert RULES[4] == r;
    case Financial => assert RULES[5] == r;
    case Names => assert RULES[6] == r;
    case Ipv4 => assert RULES[7] == r;
    case Ipv6 => assert RULES[8] == r;
    case Cidr => assert RULES[9] == r;
  }

  ghost predicate Reportable(policy: Policy, found: map<Rule, seq<Match>>, m: Match) {
    && m in Found(found, m.rule) && policy.RuleEnabled(m.rule) && m.confidence >= policy.Threshold(m.rule)
    && (m.rule != Cidr ==> forall c :: c in Found(found, Cidr) && KeptRange(policy, c) ==> !OverlapsSpan(m, c))
  }

  /** A match is reported exactly when its rule is enabled, it is confident enough, and
      it is a range or overlaps no range that is reported. */
  lemma ScanReports(policy: Policy, found: map<Rule, seq<Match>>, m: Match)
    requires Tagged(found)
    ensures m in ScanMatches(policy, found) <==> Reportable(policy, found, m)
  {
    hide KeepRules, KeepRanges, Policy.RuleEnabled, Policy.Threshold;
    var covered := KeepRanges(policy, Found(found, Cidr));
    KeepRangesMembers(policy, Found(found, Cidr), m);
    KeepRulesMembers(policy, covered, found, RULES, m);
    EveryRule(m.rule);
    OverlapsMembers(m, covered);
    forall c ensures c in covered <==> c in Found(found, Cidr) && KeptRange(policy, c) {
      KeepRangesMembers(policy, Found(found, Cidr), c);
    }
  }

  lemma OverlapsMembers(m: Match, covered: seq<Match>)
    ensures Overlaps(m, covered) <==> exists c :: c in covered && OverlapsSpan(m, c)
  {
    if c :| c in covered && OverlapsSpan(m, c) {
      var i :| 0 <= i < |covered| && covered[i] == c;
    }
    if Overlaps(m, covered) {
      var i :| 0 <= i < |covered| && OverlapsSpan(m, covered[i]);
      assert covered[i] in covered;
    }
  }

  /** No reported value overlaps a reported range, unless it is a range itself. */
  lemma RangesWin(policy: Policy, found: map<Rule, seq<Match>>, m: Match, c: Match)
    requires Tagged(found) && m in ScanMatches(policy, found) && c in ScanMatches(policy, found)
    requires c.rule == Cidr && m.rule != Cidr
    ensures m.end <= c.start || c.end <= m.start
  {
    hide ScanMatches, Policy.RuleEnabled, Policy.Threshold;
    ScanReports(policy, found, m);
    ScanReports(policy, found, c);
    assert !OverlapsSpan(m, c);
  }

  // ---- Resolving and ordering ----

  function ResolveAll(policy: Policy, matches: seq<Match>, text: string, path: Option<string>, oracles: Oracles)
    : (fs: seq<Finding>)
    ensures |fs| == |matches|
    ensures forall i :: 0 <= i < |fs| ==> fs[i] == Resolve(policy, matches[i], text, path, oracles)
  {
    seq(|matches|, i requires 0 <= i < |matches| => Resolve(policy, matches[i], text, path, oracles))
  }

  predicate Before(f: Finding, g: Finding) {
    f.start < g.start || (f.start == g.start && f.end < g.end)
  }

  predicate Ordered(fs: seq<Finding>) {
    forall i, j :: 0 <= i < j < |fs| ==> !Before(fs[j], fs[i])
  }

  /** The same findings, in some order. */
  predicate Places(fs: seq<Finding>, gs: seq<Finding>) {
    multiset(fs) == multiset(gs)
  }

  function InsertByPlace(f: Finding, fs: seq<Finding>): seq<Finding>
    decreases |fs|
  {
    if fs == [] then [f]
    else if Before(f, fs[0]) then [f] + fs
    else [fs[0]] + InsertByPlace(f, fs[1..])
  }

  function SortByPlace(fs: seq<Finding>): seq<Finding>
    decreases |fs|
  {
    if fs == [] then [] else InsertByPlace(fs[|fs| - 1], SortByPlace(fs[..|fs| - 1]))
  }

  lemma {:induction false} InsertPlaces(f: Finding, fs: seq<Finding>)
    ensures multiset(InsertByPlace(f, fs)) == multiset(fs) + multiset{f}
    decreases |fs|
  {
    if fs != [] {
      assert fs == [fs[0]] + fs[1..];
      if !Before(f, fs[0]) {
        InsertPlaces(f, fs[1..]);
      }
    }
  }

  lemma {:induction false} InsertOrdered(f: Finding, fs: seq<Finding>)
    requires Ordered(fs)
    ensures Ordered(InsertByPlace(f, fs))
    decreases |fs|
  {
    if fs != [] && !Before(f, fs[0]) {
      var rest := InsertByPlace(f, fs[1..]);
      InsertOrdered(f, fs[1..]);
      InsertPlaces(f, fs[1..]);
      forall j | 0 <= j < |rest| ensures !Before(rest[j], fs[0]) {
        assert rest[j] in multiset(rest);
        assert rest[j] == f || rest[j] in fs[1..];
      }
    } else if fs != [] {
      var r := [f] + fs;
      forall i, j | 0 <= i < j < |r| ensures !Before(r[j], r[i]) {
        assert i == 0 ==> j == 1 || !Before(fs[j - 1], fs[0]);
      }
    }
  }

  lemma {:induction false} SortPlaces(fs: seq<Finding>)
    ensures Places(SortByPlace(fs), fs) && Ordered(SortByPlace(fs))
    decreases |fs|
  {
    if fs != [] {
      var n := |fs| - 1;
      SortPlaces(fs[..n]);
      InsertPlaces(fs[n], SortByPlace(fs[..n]));
      InsertOrdered(fs[n], SortByPlace(fs[..n]));
      assert fs == fs[..n] + [fs[n]];
    }
  }

  // ---- Redacting ----

  /** The replacements of the findings that are handled and not suppressed. */
  function Patches(fs: seq<Finding>): seq<Patch>
    decreases |fs|
  {
    if fs == [] then []
    else (if fs[0].Handled() then [Patch(fs[0].start, fs[0].end, fs[0].RedactedValue())] else []) + Patches(fs[1..])
  }

  lemma SpliceNext(output: string, ps: seq<Patch>, i: nat)
    requires i < |ps|
    ensures Splice(output, ps[i..])
            == Splice(Take(output, ps[i].start) + ps[i].text + Drop(output, ps[i].end), ps[i + 1..])
  {
    hide Take, Drop;
    assert ps[i..][0] == ps[i] && ps[i..][1..] == ps[i + 1..];
  }

  method ApplyRedactions(text: string, findings: seq<Finding>) returns (output: string)
    ensures output == Splice(text, LatestFirst(Patches(findings)))
  {
    hide LatestFirst, Patches, Take, Drop;
    var active := LatestFirst(Patches(findings));
    output := text;
    var i := 0;
    while i < |active|
      invariant 0 <= i <= |active|
      invariant Splice(output, active[i..]) == Splice(text, active)
    {
      SpliceNext(output, active, i);
      output := Take(output, active[i].start) + active[i].text + Drop(output, active[i].end);
      i := i + 1;
    }
    assert active[i..] == [];
  }

  predicate Elsewhere(f: Finding, g: Finding) {
    f.end <= g.start || g.end <= f.start
  }

  /** Findings inside the text, no two handled ones of which overlap. */
  predicate Separate(fs: seq<Finding>, n: nat) {
    && (forall i :: 0 <= i < |fs| && fs[i].Handled() ==> fs[i].start < fs[i].end <= n)
    && (forall i, j :: 0 <= i < j < |fs| && fs[i].Handled() && fs[j].Handled() ==> Elsewhere(fs[i], fs[j]))
  }

  predicate Hidden(fs: seq<Finding>, p: nat) {
    exists i :: 0 <= i < |fs| && fs[i].Handled() && fs[i].start <= p < fs[i].end
  }

  lemma {:induction false} PatchesMembers(fs: seq<Finding>, q: Patch)
    ensures q in Patches(fs) <==>
            exists i :: 0 <= i < |fs| && fs[i].Handled() && q == Patch(fs[i].start, fs[i].end, fs[i].RedactedValue())
    decreases |fs|
  {
    hide Finding.RedactedValue, Finding.Handled;
    if fs != [] {
      PatchesMembers(fs[1..], q);
      if i :| 0 <= i < |fs| && fs[i].Handled() && q == Patch(fs[i].start, fs[i].end, fs[i].RedactedValue()) {
        assert i > 0 ==> fs[i] == fs[1..][i - 1];
      }
    }
  }

  lemma DisjointCons(p: Patch, ps: seq<Patch>, n: nat)
    requires Disjoint(ps, n) && p.start < p.end <= n && forall q :: q in ps ==> Apart(p, q)
    ensures Disjoint([p] + ps, n)
  {
    hide Apart;
    var all := [p] + ps;
    forall i, j | 0 <= i < j < |all| ensures Apart(all[i], all[j]) {
      assert i > 0 ==> all[i] == ps[i - 1];
      assert all[j] == ps[j - 1] && ps[j - 1] in ps;
    }
  }

  lemma SeparateRest(fs: seq<Finding>, n: nat)
    requires Separate(fs, n) && fs != []
    ensures Separate(fs[1..], n)
    ensures forall i :: 0 < i < |fs| && fs[0].Handled() && fs[i].Handled() ==> Elsewhere(fs[0], fs[i])
  {
    hide Finding.Handled, Elsewhere;
    assert forall i :: 0 <= i < |fs[1..]| ==> fs[1..][i] == fs[i + 1];
  }

  lemma PatchApart(fs: seq<Finding>, n: nat, q: Patch)
    requires Separate(fs, n) && fs != [] && fs[0].Handled() && q in Patches(fs[1..])
    ensures Apart(Patch(fs[0].start, fs[0].end, fs[0].RedactedValue()), q)
  {
    hide Finding.RedactedValue, Finding.Handled, Patches, Separate;
    SeparateRest(fs, n);
    PatchesMembers(fs[1..], q);
    var i :| 0 <= i < |fs[1..]| && fs[1..][i].Handled()
             && q == Patch(fs[1..][i].start, fs[1..][i].end, fs[1..][i].RedactedValue());
    assert fs[1..][i] == fs[i + 1] && Elsewhere(fs[0], fs[i + 1]);
  }

  lemma {:induction false} SeparatePatches(fs: seq<Finding>, n: nat)
    requires Separate(fs, n)
    ensures Disjoint(Patches(fs), n)
    decreases |fs|
  {
    hide Finding.RedactedValue, Finding.Handled, Apart;
    if fs != [] {
      SeparateRest(fs, n);
      SeparatePatches(fs[1..], n);
      if fs[0].Handled() {
        var p, ps := Patch(fs[0].start, fs[0].end, fs[0].RedactedValue()), Patches(fs[1..]);
        forall q | q in ps ensures Apart(p, q) {
          PatchApart(fs, n, q);
        }
        DisjointCons(p, ps, n);
      } else {
        assert Patches(fs) == Patches(fs[1..]);
      }
    }
  }

  lemma HiddenIsInside(fs: seq<Finding>, p: nat)
    ensures Hidden(fs, p) <==> Inside(Patches(fs), p)
  {
    hide Finding.RedactedValue, Finding.Handled, Patches;
    var ps := Patches(fs);
    if i :| 0 <= i < |fs| && fs[i].Handled() && fs[i].start <= p < fs[i].end {
      var q := Patch(fs[i].start, fs[i].end, fs[i].RedactedValue());
      PatchesMembers(fs, q);
      var j :| 0 <= j < |ps| && ps[j] == q;
    }
    if j :| 0 <= j < |ps| && ps[j].start <= p < ps[j].end {
      PatchesMembers(fs, ps[j]);
    }
  }

  /** When no two handled findings overlap, the redacted text keeps every character no
      handled finding covers, once and in order, has a placeholder for each handled
      finding, and holds nothing else; its length is conserved. */
  lemma RedactionLayout(text: string, fs: seq<Finding>)
    requires Separate(fs, |text|)
    ensures var ps := Patches(fs);
            var out := Splice(text, LatestFirst(ps));
            && |out| == |text| + Shift(ps, |text|)
            && (forall p: nat :: p < |text| && !Hidden(fs, p) ==> KeptAt(out, text, ps, p))
            && (forall q :: q in ps ==> PlacedAt(out, ps, q))
            && (forall o: nat :: o < |out| ==> FromGap(ps, |text|, o) || FromPatch(ps, o))
  {
    hide Inside, Hidden, Shift, FromGap, FromPatch, KeptAt, PlacedAt, Splice, LatestFirst, Patches, Disjoint, Separate;
    SeparatePatches(fs, |text|);
    SpliceLayout(text, Patches(fs));
    forall p: nat | p < |text| && !Hidden(fs, p) ensures !Inside(Patches(fs), p) {
      HiddenIsInside(fs, p);
    }
  }

  /** When no two handled findings overlap, the redacted text depends on exactly the
      characters that no handled finding covers: no handled value survives. */
  lemma HandledValuesHidden(text: string, fs: seq<Finding>, p: nat)
    requires Separate(fs, |text|) && p < |text|
    ensures Reveals(text, Patches(fs), p) <==> !Hidden(fs, p)
  {
    hide Inside, Hidden, Reveals, Patches, Disjoint, Separate;
    SeparatePatches(fs, |text|);
    SeparateRevealsIff(text, Patches(fs), p);
    HiddenIsInside(fs, p);
  }

  lemma PatchOf(fs: seq<Finding>, q: Patch) returns (f: Finding)
    requires q in Patches(fs)
    ensures f in fs && f.Handled() && q == Patch(f.start, f.end, f.RedactedValue())
  {
    hide Finding.RedactedValue, Finding.Handled, Patches;
    PatchesMembers(fs, q);
    var i :| 0 <= i < |fs| && fs[i].Handled() && q == Patch(fs[i].start, fs[i].end, fs[i].RedactedValue());
    f := fs[i];
  }

  predicate Ranges(fs: seq<Finding>) {
    forall f :: f in fs && f.Handled() ==> f.start <= f.end
  }

  lemma RangesAreSpans(fs: seq<Finding>)
    requires Ranges(fs)
    ensures Spans(Patches(fs))
  {
    hide Finding.RedactedValue, Finding.Handled, Patches;
    forall q | q in Patches(fs) ensures q.start <= q.end {
      var f := PatchOf(fs, q);
    }
  }

  /** Where the redacted text still has the character at `p`. */
  function LeftAt(fs: seq<Finding>, p: nat): Option<nat>
    requires Ranges(fs)
  {
    RangesAreSpans(fs);
    Left(Patches(fs), p)
  }

  /** For any number of findings, however they overlap: the redacted text depends on
      exactly the characters that the findings' offsets and the lengths of their
      placeholders leave somewhere. */
  lemma SurvivesIff(text: string, fs: seq<Finding>, p: nat)
    requires Ranges(fs) && p < |text|
    ensures Reveals(text, Patches(fs), p) <==> LeftAt(fs, p).Some?
    ensures LeftAt(fs, p).Some? ==>
              var out := Splice(text, LatestFirst(Patches(fs)));
              LeftAt(fs, p).value < |out| && out[LeftAt(fs, p).value] == text[p]
  {
    hide Reveals, Splice, LatestFirst, Patches, Ranges, Left;
    RangesAreSpans(fs);
    RevealsIff(text, Patches(fs), p);
  }

  /** Placeholders no longer than the values they stand for hide every handled value,
      whatever overlaps. */
  lemma ShortPlaceholdersHide(text: string, fs: seq<Finding>, p: nat)
    requires Ranges(fs) && forall f :: f in fs && f.Handled() ==> |f.RedactedValue()| <= f.end - f.start
    requires p < |text| && Hidden(fs, p)
    ensures !Reveals(text, Patches(fs), p)
  {
    hide Reveals, Splice, LatestFirst, Patches, Left, Inside, Hidden, Finding.RedactedValue, Finding.Handled;
    RangesAreSpans(fs);
    forall q | q in Patches(fs) ensures |q.text| <= q.end - q.start {
      var f := PatchOf(fs, q);
    }
    HiddenIsInside(fs, p);
    ShortReplacementsHide(text, Patches(fs), p);
  }

  /** Two kept characters stay in order. */
  lemma KeptInOrder(text: string, fs: seq<Finding>, p: nat, p': nat)
    requires Separate(fs, |text|) && p < p' < |text| && !Hidden(fs, p) && !Hidden(fs, p')
    ensures p + Shift(Patches(fs), p) < p' + Shift(Patches(fs), p')
  {
    hide Inside, Hidden, Shift, Splice, LatestFirst, Patches, Disjoint, Separate, Below;
    var ps := Patches(fs);
    SeparatePatches(fs, |text|);
    SortedBelow(ps, |text|);
    HiddenIsInside(fs, p);
    HiddenIsInside(fs, p');
    InsideSorted(ps, p);
    InsideSorted(ps, p');
    SortedShift(ps, p);
    SortedShift(ps, p');
    WeaveOrder(LatestFirst(ps), |text|, p, p');
  }

  lemma {:induction false} WeaveOrder(ps: seq<Patch>, limit: nat, p: nat, p': nat)
    requires Below(ps, limit) && p < p' && !Inside(ps, p) && !Inside(ps, p')
    ensures p + Shift(ps, p) < p' + Shift(ps, p')
    decreases |ps|
  {
    hide Inside;
    if ps != [] {
      InsideCons(ps, p);
      InsideCons(ps, p');
      if p < ps[0].start <= p' {
        ShiftBelow(ps[1..], ps[0].start, p);
        ShiftSettles(ps[1..], ps[0].start, p');
      } else {
        WeaveOrder(ps[1..], ps[0].start, p, p');
      }
    }
  }

  /** Past the last span the shift no longer changes. */
  lemma {:induction false} ShiftSettles(ps: seq<Patch>, limit: nat, at: nat)
    requires Below(ps, limit) && limit <= at
    ensures Shift(ps, at) == Shift(ps, limit)
    decreases |ps|
  {
    if ps != [] {
      ShiftSettles(ps[1..], ps[0].start, at);
      ShiftSettles(ps[1..], ps[0].start, limit);
    }
  }

  /** What stands before the limit stays before where the limit moves. */
  lemma {:induction false} ShiftBelow(ps: seq<Patch>, limit: nat, p: nat)
    requires Below(ps, limit) && p < limit && !Inside(ps, p)
    ensures p + Shift(ps, p) < limit + Shift(ps, limit)
    decreases |ps|
  {
    hide Inside;
    if ps != [] {
      InsideCons(ps, p);
      if p < ps[0].start {
        ShiftBelow(ps[1..], ps[0].start, p);
        ShiftSettles(ps[1..], ps[0].start, limit);
      } else {
        ShiftSettles(ps[1..], ps[0].start, p);
        ShiftSettles(ps[1..], ps[0].start, limit);
      }
    }
  }
}
