/** What an encoded evidence document says, field by field. (engine/evidence.py) */
module PayloadMeaning {
  import opened Text
  import opened JsonSweep
  import opened EvidenceDocument

  // ---- Strings ----

  /** A string of the result is the one given when nothing in it was redacted; otherwise it
      is the redacted one, cut to 2037 characters and the marker when that is over 2048. */
  lemma SweptStringSays(patterns: seq<Pattern>, s: string)
    ensures var (text, hit) := Scrubbed(patterns, s);
            SweptText(patterns, s) == if !hit then s
                                      else if |text| <= 2048 then text else text[..2037] + "[truncated]"
  {
    hide Scrubbed;
    assert |TRUNCATION_MARKER| == 11;
  }

  // ---- The fields of a candidate ----

  /** What the sweep leaves of a field. */
  function SweptField(env: Env, document: Json, key: string): Option<Json>
    requires Dict(document)
  {
    match Lookup(document, key)
    case None => None
    case Some(v) => Some(if v.Str? then Str(SweptText(env.patterns, v.s)) else Swept(env.patterns, v))
  }

  lemma BaseField(env: Env, document: Json, key: string)
    requires Dict(document)
    ensures Lookup(Base(env, document), key) == SweptField(env, document, key)
  {
    hide Lookup, SweptText;
    SweptDict(env.patterns, document);
    if Lookup(document, key).Some? && !Lookup(document, key).value.Coll? {
      LeafSwept(env.patterns, Lookup(document, key).value);
    }
  }

  /** The checks given: those of a list, else none. */
  function GivenChecks(document: Json): seq<Json>
    requires Dict(document)
  {
    match Lookup(document, "checks")
    case Some(Coll(Listing, checks)) => checks
    case _ => []
  }

  function SweptValue(env: Env, v: Json): Json {
    if v.Str? then Str(SweptText(env.patterns, v.s)) else Swept(env.patterns, v)
  }

  lemma ChecksAre(env: Env, document: Json)
    requires Dict(document)
    ensures |Checks(env, document)| == |GivenChecks(document)|
    ensures forall i :: 0 <= i < |GivenChecks(document)| ==>
              Checks(env, document)[i] == SweptValue(env, GivenChecks(document)[i])
  {
    hide Lookup, SweptText;
    SweptDict(env.patterns, document);
    if Lookup(document, "checks").Some? && Lookup(document, "checks").value.Coll? {
      CollSwept(env.patterns, Lookup(document, "checks").value);
    } else if Lookup(document, "checks").Some? {
      LeafSwept(env.patterns, Lookup(document, "checks").value);
    }
  }

  /** Every field but the four that are edited is the swept one, unless the last resort is
      all that is left. */
  lemma OtherFieldsAreSwept(env: Env, document: Json, maxBytes: nat, key: string)
    requires Acceptable(document) && key !in {"metadata", "checks", "summary", "subject"}
    ensures var r := Bounded(env, document, maxBytes);
            r == Minimal(env, document) || Lookup(r, key) == SweptField(env, document, key)
  {
    hide WithChecks, Checks, Minimal, Shrunk, KeptChecks, Lookup, SweptField, Base;
    var k := KeptChecks(env, document, maxBytes, |Checks(env, document)|);
    FieldWithChecks(env, document, k, key);
    FieldShrunk(env, document, key);
    BaseField(env, document, key);
  }

  /** The checks of the result are the first of those given, each swept. */
  lemma ResultChecksAreSwept(env: Env, document: Json, maxBytes: nat)
    requires Acceptable(document)
    ensures var r := Bounded(env, document, maxBytes);
            && Dict(r) && |ChecksIn(r)| <= |GivenChecks(document)|
            && forall i :: 0 <= i < |ChecksIn(r)| ==> ChecksIn(r)[i] == SweptValue(env, GivenChecks(document)[i])
  {
    hide Bounded, ChecksIn, Checks, GivenChecks, SweptValue;
    KeptChecksAreAPrefix(env, document, maxBytes);
    ChecksAre(env, document);
  }

  /** As text: a string as it is, nothing for null, and what `str` makes of anything else. */
  function AsText(env: Env, v: Option<Json>): string {
    match v
    case None => ""
    case Some(Null) => ""
    case Some(Str(s)) => s
    case Some(other) => env.show(other)
  }

  /** Redacted once more and cut to `limit`. */
  function CutTo(env: Env, s: string, limit: nat): string
    requires limit >= 11
  {
    var text := Scrubbed(env.patterns, s).0;
    if |text| <= limit then text else text[..limit - 11] + "[truncated]"
  }

  lemma RedactedCuts(env: Env, s: string, limit: nat)
    requires limit >= 11
    ensures Redacted(env.patterns, s, limit).text == CutTo(env, s, limit)
    ensures Redacted(env.patterns, s, limit).redacted == Scrubbed(env.patterns, s).1
  {
    hide Scrubbed;
    assert |TRUNCATION_MARKER| == 11;
  }

  /** The summary is the swept one, or, in the shrunk document, that cut to 256. */
  lemma SummarySays(env: Env, document: Json, maxBytes: nat)
    requires Acceptable(document)
    ensures var r, swept := Bounded(env, document, maxBytes), SweptField(env, document, "summary");
            || r == Minimal(env, document) || Lookup(r, "summary") == swept
            || (r == Shrunk(env, document) && Lookup(r, "summary") == Some(Str(CutTo(env, AsText(env, swept), 256))))
  {
    hide WithChecks, Checks, Minimal, Shrunk, KeptChecks, Lookup, SweptField, Base, CutTo;
    var k := KeptChecks(env, document, maxBytes, |Checks(env, document)|);
    FieldWithChecks(env, document, k, "summary");
    BaseField(env, document, "summary");
    ShrunkSummary(env, document);
  }

  lemma ShrunkSummary(env: Env, document: Json)
    requires Acceptable(document)
    ensures Lookup(Shrunk(env, document), "summary")
            == Some(Str(CutTo(env, AsText(env, Lookup(Base(env, document), "summary")), 256)))
  {
    hide Put, Lookup, Redacted, Base, Assembled, MetadataWith, Checks, CutTo;
    var base := Base(env, document);
    var given := AsText(env, Lookup(base, "summary"));
    assert ShowText(env, Lookup(base, "summary").GetOr(Str(""))) == given;
    var summary := Redacted(env.patterns, given, 256);
    RedactedCuts(env, given, 256);
    var b1 := Put(base, "summary", Str(summary.text));
    LookupPut(base, "summary", Str(summary.text), "summary");
    var shrunk := ShrunkBase(env, base);
    if Lookup(b1, "subject").Some? && Dict(Lookup(b1, "subject").value)
       && Lookup(Lookup(b1, "subject").value, "title").Some? {
      var subject := Lookup(b1, "subject").value;
      var title := Redacted(env.patterns, ShowText(env, Lookup(subject, "title").value), 128);
      LookupPut(b1, "subject", Put(subject, "title", Str(title.text)), "summary");
    }
    var m := MetadataWith(env, document, 0);
    var m1 := if shrunk.1 then Put(m, "redactionsApplied", Bool(true)) else m;
    FieldAssembled(shrunk.0, Put(m1, "truncated", Bool(true)), [], "summary");
  }

  /** A subject that is a mapping with a title. */
  predicate Titled(subject: Option<Json>) {
    subject.Some? && Dict(subject.value) && Lookup(subject.value, "title").Some?
  }

  /** The same mapping with its title cut to 128. */
  ghost predicate TitleCut(env: Env, given: Option<Json>, got: Option<Json>)
    requires Titled(given)
  {
    && got.Some? && Dict(got.value)
    && forall key :: FieldOf(got.value, key)
                     == if key == "title" then Some(Str(CutTo(env, AsText(env, FieldOf(given.value, "title")), 128)))
                        else FieldOf(given.value, key)
  }

  function FieldOf(j: Json, key: string): Option<Json>
    requires Dict(j)
  {
    Lookup(j, key)
  }

  /** The subject is the swept one, except that in the shrunk document the title of a
      mapping that has one is cut. */
  lemma SubjectSays(env: Env, document: Json, maxBytes: nat)
    requires Acceptable(document)
    ensures var r, swept := Bounded(env, document, maxBytes), SweptField(env, document, "subject");
            || r == Minimal(env, document) || Lookup(r, "subject") == swept
            || (r == Shrunk(env, document) && Titled(swept) && TitleCut(env, swept, Lookup(r, "subject")))
    ensures var got, swept := Lookup(Shrunk(env, document), "subject"), SweptField(env, document, "subject");
            if Titled(swept) then TitleCut(env, swept, got) else got == swept
  {
    hide WithChecks, Checks, Minimal, Shrunk, KeptChecks, Lookup, SweptField, Base, CutTo, AsText, TitleCut;
    var k := KeptChecks(env, document, maxBytes, |Checks(env, document)|);
    FieldWithChecks(env, document, k, "subject");
    BaseField(env, document, "subject");
    ShrunkSubject(env, document);
  }

  /** What was redacted in cutting the summary and the title. */
  function CutRedacts(env: Env, document: Json): bool
    requires Dict(document)
  {
    var summary, subject := SweptField(env, document, "summary"), SweptField(env, document, "subject");
    || Scrubbed(env.patterns, AsText(env, summary)).1
    || (Titled(subject) && Scrubbed(env.patterns, AsText(env, Lookup(subject.value, "title"))).1)
  }

  lemma ShrunkSubject(env: Env, document: Json)
    requires Acceptable(document)
    ensures var given, got := Lookup(Base(env, document), "subject"), Lookup(Shrunk(env, document), "subject");
            if Titled(given) then TitleCut(env, given, got) else got == given
    ensures ShrunkBase(env, Base(env, document)).1 == CutRedacts(env, document)
  {
    hide Put, Lookup, Redacted, Base, Assembled, MetadataWith, Checks, CutTo, Scrubbed, SweptField;
    var base := Base(env, document);
    BaseField(env, document, "summary");
    BaseField(env, document, "subject");
    var text := AsText(env, Lookup(base, "summary"));
    assert ShowText(env, Lookup(base, "summary").GetOr(Str(""))) == text;
    var summary := Redacted(env.patterns, text, 256);
    RedactedCuts(env, text, 256);
    var b1 := Put(base, "summary", Str(summary.text));
    LookupPut(base, "summary", Str(summary.text), "subject");
    var shrunk := ShrunkBase(env, base);
    if Titled(Lookup(b1, "subject")) {
      var subject := Lookup(b1, "subject").value;
      var given := AsText(env, Lookup(subject, "title"));
      var title := Redacted(env.patterns, given, 128);
      RedactedCuts(env, given, 128);
      LookupPut(b1, "subject", Put(subject, "title", Str(title.text)), "subject");
      forall key ensures Lookup(Put(subject, "title", Str(title.text)), key)
                         == if key == "title" then Some(Str(title.text)) else Lookup(subject, key) {
        LookupPut(subject, "title", Str(title.text), key);
      }
    }
    var m := MetadataWith(env, document, 0);
    var m1 := if shrunk.1 then Put(m, "redactionsApplied", Bool(true)) else m;
    FieldAssembled(shrunk.0, Put(m1, "truncated", Bool(true)), [], "subject");
  }

  // ---- What the metadata says ----

  /** A value that counts as true: anything but false, null, zero and what is empty. */
  predicate Counts(v: Option<Json>) {
    v !in {None, Some(Null), Some(Bool(false)), Some(Num(0)), Some(Str(""))}
    && !(v.Some? && v.value.Coll? && |v.value.children| == 0)
  }

  lemma TruthyIff(v: Option<Json>)
    ensures Truthy(v) <==> Counts(v)
  {
  }

  /** The metadata given, swept. */
  function SweptFact(env: Env, document: Json, key: string): Option<Json>
    requires Acceptable(document)
  {
    match Lookup(document, "metadata")
    case None => None
    case Some(m) => SweptField(env, m, key)
  }

  lemma SweptMetadataSays(env: Env, document: Json, key: string)
    requires Acceptable(document)
    ensures Lookup(SweptMetadata(env, document), key) == SweptFact(env, document, key)
  {
    hide SweptText, SweptField, Position;
    if Lookup(document, "metadata").Some? {
      BaseField(env, Lookup(document, "metadata").value, key);
    }
  }

  lemma FlagsWithChecks(env: Env, document: Json, k: nat)
    requires Acceptable(document) && k <= |Checks(env, document)|
    ensures var r := WithChecks(env, document, k);
            && FactIn(r, "redacted") == Some(Bool(true))
            && FactIn(r, "redactionsApplied")
               == Some(Bool(Counts(SweptFact(env, document, "redactionsApplied")) || SomeRedacted(env.patterns, document)))
            && FactIn(r, "truncated")
               == Some(Bool(|Checks(env, document)| > k || Counts(SweptFact(env, document, "truncated"))
                            || SomeTruncated(env.patterns, document)))
  {
    hide Assembled, Checks, Base, Lookup, Put, SweptMetadata, Truthy, Counts, SweptFact, SomeRedacted, SomeTruncated;
    var m := SweptMetadata(env, document);
    SweptMetadataSays(env, document, "redactionsApplied");
    SweptMetadataSays(env, document, "truncated");
    TruthyIff(SweptFact(env, document, "redactionsApplied"));
    TruthyIff(SweptFact(env, document, "truncated"));
    var m1 := Put(m, "redacted", Bool(true));
    var applied := Bool(Truthy(Lookup(m1, "redactionsApplied")) || SomeRedacted(env.patterns, document));
    var m2 := Put(m1, "redactionsApplied", applied);
    var cut := Bool(Truthy(Lookup(m2, "truncated")) || SomeTruncated(env.patterns, document));
    forall key | key in ["redacted", "redactionsApplied", "truncated"]
      ensures Lookup(m1, key) == if key == "redacted" then Some(Bool(true)) else Lookup(m, key)
      ensures Lookup(m2, key) == if key == "redactionsApplied" then Some(applied) else Lookup(m1, key)
      ensures Lookup(Put(m2, "truncated", cut), key) == if key == "truncated" then Some(cut) else Lookup(m2, key)
      ensures Lookup(Put(Metadata(env, document), "truncated", Bool(true)), key)
              == if key == "truncated" then Some(Bool(true)) else Lookup(Metadata(env, document), key)
    {
      LookupPut(m, "redacted", Bool(true), key);
      LookupPut(m1, "redactionsApplied", applied, key);
      LookupPut(m2, "truncated", cut, key);
      LookupPut(Metadata(env, document), "truncated", Bool(true), key);
    }
    assert "redacted" in ["redacted", "redactionsApplied", "truncated"];
    assert "redactionsApplied" in ["redacted", "redactionsApplied", "truncated"];
    assert "truncated" in ["redacted", "redactionsApplied", "truncated"];
    AssembledParts(Base(env, document), MetadataWith(env, document, k), Checks(env, document)[..k]);
  }

  /** The shrunk document says it is truncated, and that something was redacted also when
      that was in cutting its texts. */
  lemma FlagsShrunk(env: Env, document: Json)
    requires Acceptable(document)
    ensures var r := Shrunk(env, document);
            && FactIn(r, "redacted") == Some(Bool(true)) && FactIn(r, "truncated") == Some(Bool(true))
            && FactIn(r, "redactionsApplied")
               == Some(Bool(CutRedacts(env, document) || Counts(SweptFact(env, document, "redactionsApplied"))
                            || SomeRedacted(env.patterns, document)))
  {
    hide Assembled, Checks, Base, Lookup, Put, SweptMetadata, Counts, SweptFact, SomeRedacted, SomeTruncated, ShrunkBase,
         MetadataWith, CutRedacts;
    FlagsWithChecks(env, document, 0);
    AssembledParts(Base(env, document), MetadataWith(env, document, 0), Checks(env, document)[..0]);
    ShrunkSubject(env, document);
    var base := ShrunkBase(env, Base(env, document));
    var m := MetadataWith(env, document, 0);
    var m1 := if base.1 then Put(m, "redactionsApplied", Bool(true)) else m;
    LookupPut(m, "redactionsApplied", Bool(true), "redacted");
    LookupPut(m, "redactionsApplied", Bool(true), "redactionsApplied");
    LookupPut(m1, "truncated", Bool(true), "redacted");
    LookupPut(m1, "truncated", Bool(true), "redactionsApplied");
    LookupPut(m1, "truncated", Bool(true), "truncated");
    AssembledParts(base.0, Put(m1, "truncated", Bool(true)), []);
  }

  // ---- The last resort ----

  /** The given value when it is one of those allowed, else the fallback. */
  function Allowed(document: Json, key: string, allowed: seq<string>, fallback: string): Json
    requires Dict(document)
  {
    match Lookup(document, key)
    case Some(Str(s)) => if s in allowed then Str(s) else Str(fallback)
    case _ => Str(fallback)
  }

  lemma OneOfIs(document: Json, key: string, allowed: seq<string>, fallback: string)
    requires Dict(document)
    ensures OneOf(Lookup(document, key), allowed, fallback) == Allowed(document, key, allowed, fallback)
  {
    hide Lookup;
  }

  /** Every field of the minimal document. */
  lemma MinimalFields(env: Env, document: Json)
    requires Dict(document)
    ensures var r := Minimal(env, document);
            && Dict(r) && |r.children| == 11
            && Lookup(r, "schemaVersion") == Some(Str("1.0"))
            && Lookup(r, "command") == Some(Allowed(document, "command", ["guard", "judge", "report"], "guard"))
            && Lookup(r, "scope") == Some(Allowed(document, "scope", ["staged", "working-tree", "history"], "staged"))
            && Lookup(r, "outcome")
               == Some(Allowed(document, "outcome", ["pass", "fail", "error", "unknown"], "unknown"))
            && Lookup(r, "generatedAt")
               == Some(if Lookup(document, "generatedAt").None? then Str(env.now) else Lookup(document, "generatedAt").value)
            && Lookup(r, "passed")
               == Some(if Lookup(document, "passed") in {Some(Bool(true)), Some(Bool(false))}
                       then Lookup(document, "passed").value else Null)
            && Lookup(r, "summary") == Some(Str("Evidence exceeded the output limit"))
            && Lookup(r, "checks") == Some(Coll(Listing, []))
            && Lookup(r, "producer") == Some(Coll(Keyed(["name", "version"]),
                 [Str("gitreins"), Str(if |env.version| > 64 then env.version[..64] else env.version)]))
            && Lookup(r, "metadata") == Some(Coll(Keyed(["redacted", "redactionsApplied", "truncated"]),
                 [Bool(true), Bool(true), Bool(true)]))
  {
    hide Lookup, OneOf, Allowed;
    OneOfIs(document, "command", ["guard", "judge", "report"], "guard");
    OneOfIs(document, "scope", ["staged", "working-tree", "history"], "staged");
    OneOfIs(document, "outcome", ["pass", "fail", "error", "unknown"], "unknown");
    forall i: nat | i < 11 ensures Lookup(Minimal(env, document), MinimalKeys()[i]) == Some(Minimal(env, document).children[i]) {
      MinimalAt(env, document, i);
    }
    var keys := MinimalKeys();
    assert keys[1] == "schemaVersion" && keys[3] == "command" && keys[5] == "scope" && keys[6] == "outcome";
    assert keys[2] == "producer" && keys[10] == "metadata";
    assert keys[4] == "generatedAt" && keys[7] == "passed" && keys[8] == "summary" && keys[9] == "checks";
  }

  function MinimalKeys(): (keys: seq<string>)
    ensures |keys| == 11
  {
    ["$schema", "schemaVersion", "producer", "command", "generatedAt", "scope", "outcome", "passed", "summary", "checks",
     "metadata"]
  }

  lemma MinimalAt(env: Env, document: Json, i: nat)
    requires Dict(document) && i < 11
    ensures Dict(Minimal(env, document))
    ensures Lookup(Minimal(env, document), MinimalKeys()[i]) == Some(Minimal(env, document).children[i])
  {
    hide Position, OneOf;
    DistinctKeys(MinimalKeys(), i);
    KeyAt(MinimalKeys(), i);
  }

  lemma DistinctKeys(keys: seq<string>, i: nat)
    requires keys == ["$schema", "schemaVersion", "producer", "command", "generatedAt", "scope", "outcome", "passed",
                      "summary", "checks", "metadata"]
    requires i < |keys|
    ensures forall k :: 0 <= k < i ==> keys[k] != keys[i]
  {
  }
}
