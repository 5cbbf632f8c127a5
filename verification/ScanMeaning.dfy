/** What a scan reports and what its redacted text shows, in the fields of the policy, of
    the matches and of the findings. (engine/data_protection.py) */
module ScanMeaning {
  import opened Text
  import opened Splicing
  import opened DataProtection

  // ---- Which matches are reported ----

  /** The policy for the rule's category, when it has one. */
  function Governing(policy: Policy, rule: Rule): Option<CategoryPolicy> {
    var category := if rule in {Ipv4, Ipv6, Cidr} then IpAddresses else Pii;
    if category in policy.categories then Some(policy.categories[category]) else None
  }

  /** The rule is run: its category is on, and so is its class unless the category says
      nothing about it. */
  predicate Runs(policy: Policy, rule: Rule) {
    match Governing(policy, rule)
    case None => false
    case Some(c) =>
      c.detection != Off && (rule in c.classes ==> c.classes[rule].enabled && c.classes[rule].detection != Some(Off))
  }

  /** Confident enough for its class, or else for its category, or else for the default:
      0.7 for personal data and nothing for addresses. */
  predicate Confident(policy: Policy, m: Match) {
    match Governing(policy, m.rule)
    case None => false
    case Some(c) =>
      if m.rule in c.classes && c.classes[m.rule].confidence.Some? then m.confidence >= c.classes[m.rule].confidence.value
      else if c.confidence.Some? then m.confidence >= c.confidence.value
      else m.confidence >= if m.rule in {Ipv4, Ipv6, Cidr} then 0.0 else 0.7
  }

  predicate Matched(found: map<Rule, seq<Match>>, m: Match) {
    m.rule in found && m in found[m.rule]
  }

  predicate Meets(m: Match, c: Match) {
    m.start < c.end && c.start < m.end
  }

  lemma RunsIff(policy: Policy, rule: Rule)
    ensures policy.RuleEnabled(rule) <==> Runs(policy, rule)
  {
  }

  lemma ConfidentIff(policy: Policy, m: Match)
    requires Runs(policy, m.rule)
    ensures m.confidence >= policy.Threshold(m.rule) <==> Confident(policy, m)
  {
  }

  lemma RangeReported(policy: Policy, found: map<Rule, seq<Match>>, c: Match)
    requires Tagged(found)
    ensures c in Found(found, Cidr) && KeptRange(policy, c)
            <==> c.rule == Cidr && Matched(found, c) && Runs(policy, Cidr) && Confident(policy, c)
  {
    hide Policy.RuleEnabled, Policy.Threshold, Runs, Confident;
    RunsIff(policy, Cidr);
    if c.rule == Cidr && Runs(policy, Cidr) {
      ConfidentIff(policy, c);
    }
  }

  /** A match is reported exactly when its rule is run, it is confident enough, and it is a
      range or meets no range that is reported. */
  lemma ReportedIff(policy: Policy, found: map<Rule, seq<Match>>, m: Match)
    requires Tagged(found)
    ensures m in ScanMatches(policy, found)
            <==> && Matched(found, m) && Runs(policy, m.rule) && Confident(policy, m)
                 && (m.rule != Cidr ==>
                       forall c: Match :: c.rule == Cidr && Matched(found, c) && Runs(policy, Cidr) && Confident(policy, c) ==>
                         !Meets(m, c))
  {
    hide Policy.RuleEnabled, Policy.Threshold, Runs, Confident, ScanMatches, KeptRange;
    ScanReports(policy, found, m);
    RunsIff(policy, m.rule);
    if Runs(policy, m.rule) {
      ConfidentIff(policy, m);
    }
    forall c: Match
      ensures c in Found(found, Cidr) && KeptRange(policy, c)
              <==> c.rule == Cidr && Matched(found, c) && Runs(policy, Cidr) && Confident(policy, c)
    {
      RangeReported(policy, found, c);
    }
  }

  // ---- What a finding says ----

  /** An exception for the match: for its category, its rule unless any, its value unless
      any, and a scope that takes in the path. Without a path only `*` and `**` do. */
  predicate Excused(e: Exception, m: Match, path: Option<string>, oracles: Oracles) {
    && e.category == (if m.rule in {Ipv4, Ipv6, Cidr} then IpAddresses else Pii)
    && (e.rule == None || e.rule == Some(m.rule)) && (e.value == None || e.value == Some(m.value))
    && match path
       case None => e.scope == "*" || e.scope == "**"
       case Some(file) => oracles.globs(file, e.scope)
  }

  /** What is done with a match under its category's policy: an address in the preserve
      list is preserved; any other address follows the default action, if there is one;
      otherwise the class decides, if it says so, and the category if not. */
  predicate Decides(c: CategoryPolicy, m: Match, oracles: Oracles, handling: Handling) {
    var address := m.rule in {Ipv4, Ipv6, Cidr};
    if address && c.preserveList != [] && oracles.inRange(m.value, c.preserveList) then handling == Preserve
    else if address && c.defaultAction.Some? then handling == c.defaultAction.value
    else if m.rule in c.classes && c.classes[m.rule].handling.Some? then handling == c.classes[m.rule].handling.value
    else handling == c.handling
  }

  /** A finding describes a match: the same place, value and confidence, the number of the
      line it starts on, and what the policy says about it. */
  ghost predicate Describes(f: Finding, policy: Policy, m: Match, text: string, path: Option<string>, oracles: Oracles) {
    && f.rule == m.rule && f.value == m.value && f.start == m.start && f.end == m.end && f.confidence == m.confidence
    && f.line == |Split(Take(text, m.start), '\n')|
    && (f.suppressed <==> exists e :: e in policy.exceptions && Excused(e, m, path, oracles))
    && Governing(policy, m.rule).Some?
    && var c := Governing(policy, m.rule).value;
       && Decides(c, m, oracles, f.handling)
       && f.detection == (if m.rule in c.classes && c.classes[m.rule].detection.Some?
                          then c.classes[m.rule].detection.value else c.detection)
  }

  lemma {:induction false} LinesOf(s: string)
    ensures Newlines(s) + 1 == |Split(s, '\n')|
  {
    if s != "" {
      LinesOf(s[1..]);
    }
  }

  lemma ExceptsIff(e: Exception, m: Match, path: Option<string>, oracles: Oracles)
    ensures Excepts(e, m, path, oracles) <==> Excused(e, m, path, oracles)
  {
  }

  lemma ResolveDescribes(policy: Policy, m: Match, text: string, path: Option<string>, oracles: Oracles, f: Finding)
    requires Governing(policy, m.rule).Some?
    ensures f == Resolve(policy, m, text, path, oracles) <==> Describes(f, policy, m, text, path, oracles)
  {
    hide Newlines, Split, Excepts, Excused;
    LinesOf(Take(text, m.start));
    forall e: Exception ensures Excepts(e, m, path, oracles) <==> Excused(e, m, path, oracles) {
      ExceptsIff(e, m, path, oracles);
    }
    var g := Resolve(policy, m, text, path, oracles);
    assert g.suppressed <==> exists e :: e in policy.exceptions && Excused(e, m, path, oracles);
    assert Decides(Governing(policy, m.rule).value, m, oracles, g.handling);
    assert Describes(g, policy, m, text, path, oracles);
    if Describes(f, policy, m, text, path, oracles) {
      assert f.handling == g.handling && f.detection == g.detection && f.suppressed == g.suppressed;
    }
  }

  /** What a scan finds: nothing unless the policy is on and there is a text; otherwise
      exactly the descriptions of the reported matches. */
  lemma FindsIff(policy: Policy, text: string, path: Option<string>, found: map<Rule, seq<Match>>, oracles: Oracles,
                 f: Finding)
    requires Tagged(found)
    ensures f in Findings(policy, text, path, found, oracles)
            <==> policy.enabled && text != "" && exists m :: Tells(policy, text, path, found, oracles, f, m)
  {
    hide ScanMatches, Describes, Resolve, Runs, SortByPlace, ResolveAll;
    var matches := ScanMatches(policy, found);
    var all := ResolveAll(policy, matches, text, path, oracles);
    SortPlaces(all);
    assert f in SortByPlace(all) <==> f in multiset(SortByPlace(all));
    assert f in all <==> f in multiset(all);
    if f in Findings(policy, text, path, found, oracles) {
      var i :| 0 <= i < |all| && all[i] == f;
      assert matches[i] in matches;
      ReportedRuns(policy, found, matches[i]);
      ResolveDescribes(policy, matches[i], text, path, oracles, f);
      assert Tells(policy, text, path, found, oracles, f, matches[i]);
    }
    if policy.enabled && text != "" && exists m :: Tells(policy, text, path, found, oracles, f, m) {
      var m :| Tells(policy, text, path, found, oracles, f, m);
      ReportedRuns(policy, found, m);
      ResolveDescribes(policy, m, text, path, oracles, f);
      var i :| 0 <= i < |matches| && matches[i] == m;
      assert all[i] == f;
    }
  }

  ghost predicate Tells(policy: Policy, text: string, path: Option<string>, found: map<Rule, seq<Match>>,
                        oracles: Oracles, f: Finding, m: Match)
  {
    m in ScanMatches(policy, found) && Describes(f, policy, m, text, path, oracles)
  }

  /** A policy that runs a rule is active once it is enabled. */
  lemma ReportedRuns(policy: Policy, found: map<Rule, seq<Match>>, m: Match)
    requires Tagged(found) && m in ScanMatches(policy, found)
    ensures Governing(policy, m.rule).Some? && (policy.Active() <==> policy.enabled)
  {
    hide ScanMatches, Confident;
    ReportedIff(policy, found, m);
    assert Runs(policy, m.rule);
  }

  /** Findings come by start, and those with the same start by end. */
  lemma FindingsInOrder(policy: Policy, text: string, path: Option<string>, found: map<Rule, seq<Match>>,
                        oracles: Oracles, i: nat, j: nat)
    requires i < j < |Findings(policy, text, path, found, oracles)|
    ensures var fs := Findings(policy, text, path, found, oracles);
            fs[i].start < fs[j].start || (fs[i].start == fs[j].start && fs[i].end <= fs[j].end)
  {
    hide ScanMatches, Resolve, SortByPlace;
    SortPlaces(ResolveAll(policy, ScanMatches(policy, found), text, path, oracles));
  }

  // ---- What the redacted text shows ----

  /** The finding is to be taken out of the text. */
  predicate TakenOut(f: Finding) {
    !f.suppressed && (f.handling == Redact || f.handling == Replace)
  }

  /** The findings to be taken out lie inside the text, none empty and none overlapping
      another. */
  predicate NoOverlap(fs: seq<Finding>, n: nat) {
    && (forall i :: 0 <= i < |fs| && TakenOut(fs[i]) ==> fs[i].start < fs[i].end <= n)
    && (forall i, j :: 0 <= i < j < |fs| && TakenOut(fs[i]) && TakenOut(fs[j]) ==>
          fs[i].end <= fs[j].start || fs[j].end <= fs[i].start)
  }

  predicate Covered(fs: seq<Finding>, p: nat) {
    exists i :: 0 <= i < |fs| && TakenOut(fs[i]) && fs[i].start <= p < fs[i].end
  }

  lemma HandledIff(f: Finding)
    ensures f.Handled() <==> TakenOut(f)
  {
  }

  lemma TakenOutSeparate(fs: seq<Finding>, n: nat)
    requires NoOverlap(fs, n)
    ensures Separate(fs, n) && forall p: nat :: Hidden(fs, p) <==> Covered(fs, p)
  {
    hide Finding.Handled, TakenOut;
    forall f: Finding ensures f.Handled() <==> TakenOut(f) {
      HandledIff(f);
    }
  }

  /** The redacted text depends on exactly the characters of no finding that is to be taken
      out: those of a preserved or suppressed finding stay, and so does all else. */
  lemma TextShowsIff(text: string, fs: seq<Finding>, p: nat)
    requires NoOverlap(fs, |text|) && p < |text|
    ensures Reveals(text, Patches(fs), p) <==> !Covered(fs, p)
    ensures !Covered(fs, p) ==> KeptAt(Splice(text, LatestFirst(Patches(fs))), text, Patches(fs), p)
  {
    hide Reveals, Patches, Splice, LatestFirst, Separate, Covered, Hidden, NoOverlap, KeptAt, PlacedAt, FromGap, FromPatch;
    TakenOutSeparate(fs, |text|);
    HandledValuesHidden(text, fs, p);
    RedactionLayout(text, fs);
  }

  /** What stands for a finding of each class. */
  lemma StandIns(f: Finding)
    ensures f.RedactedValue()
            == if f.handling == Replace then ClassText(f.rule)
               else if f.rule in {Ipv4, Ipv6, Cidr} then "[REDACTED:ip_addresses]" else "[REDACTED:pii]"
  {
    assert f.rule.Placeholder() == ClassText(f.rule);
  }

  function ClassText(rule: Rule): string {
    match rule
    case Email => "[PII:EMAIL]" case Phone => "[PII:PHONE]" case Ssn => "[PII:SSN]"
    case Passport => "[PII:PASSPORT]" case Medical => "[PII:MEDICAL]" case Financial => "[PII:FINANCIAL]"
    case Names => "[PII:NAME]" case Ipv4 => "[IP:IPV4]" case Ipv6 => "[IP:IPV6]" case Cidr => "[IP:CIDR]"
  }

  /** In the place of each finding taken out stands, whole, the name of its class for
      `replace` and of its category for `redact`. */
  lemma StandInPlaced(text: string, fs: seq<Finding>, i: nat)
    requires NoOverlap(fs, |text|) && i < |fs| && TakenOut(fs[i])
    ensures var f := fs[i];
            var text' := if f.handling == Replace then ClassText(f.rule)
                         else if f.rule in {Ipv4, Ipv6, Cidr} then "[REDACTED:ip_addresses]" else "[REDACTED:pii]";
            PlacedAt(Splice(text, LatestFirst(Patches(fs))), Patches(fs), Patch(f.start, f.end, text'))
  {
    hide Patches, Splice, LatestFirst, Separate, Hidden, NoOverlap, KeptAt, PlacedAt, FromGap, FromPatch,
         Finding.RedactedValue, ClassText, Finding.Handled;
    TakenOutSeparate(fs, |text|);
    RedactionLayout(text, fs);
    HandledIff(fs[i]);
    PatchesMembers(fs, Patch(fs[i].start, fs[i].end, fs[i].RedactedValue()));
    StandIns(fs[i]);
  }
}
