/** An evidence document under a hard byte ceiling. (engine/evidence.py, dumps_evidence) */
module EvidenceDocument {
  import opened Text
  import opened JsonSweep
  import opened JsonHeap

  /** What the serializer and the surroundings supply: the byte length of a document's
      encoding, `str` of a value that is no string, the version and the clock. */
  datatype Env = Env(patterns: seq<Pattern>, size: Json -> nat, show: Json -> string, version: string, now: string)

  predicate Dict(j: Json) {
    j.Coll? && j.kind.Keyed? && |j.kind.keys| == |j.children|
  }

  function Position(keys: seq<string>, key: string): (i: nat)
    ensures i <= |keys| && (i < |keys| ==> keys[i] == key) && (forall k :: 0 <= k < i ==> keys[k] != key)
  {
    if keys == [] || keys[0] == key then 0 else 1 + Position(keys[1..], key)
  }

  /** `document.get(key)`. */
  function Lookup(j: Json, key: string): Option<Json>
    requires Dict(j)
  {
    var i := Position(j.kind.keys, key);
    if i < |j.children| then Some(j.children[i]) else None
  }

  function Put(j: Json, key: string, value: Json): (r: Json)
    requires Dict(j)
    ensures Dict(r)
  {
    var i := Position(j.kind.keys, key);
    if i < |j.children| then Coll(j.kind, j.children[i := value])
    else Coll(Keyed(j.kind.keys + [key]), j.children + [value])
  }

  lemma {:induction false} PositionAppend(keys: seq<string>, key: string, other: string)
    ensures Position(keys + [key], other)
            == if Position(keys, other) < |keys| then Position(keys, other)
               else if other == key then |keys| else |keys| + 1
    decreases |keys|
  {
    if keys != [] {
      assert (keys + [key])[1..] == keys[1..] + [key];
      PositionAppend(keys[1..], key, other);
    } else {
      assert [key][1..] == [];
      assert [] + [key] == [key];
    }
  }

  lemma LookupPut(j: Json, key: string, value: Json, other: string)
    requires Dict(j)
    ensures Lookup(Put(j, key, value), other) == if other == key then Some(value) else Lookup(j, other)
  {
    hide Position;
    PositionAppend(j.kind.keys, key, other);
  }

  function EmptyDict(): Json { Coll(Keyed([]), []) }

  predicate Truthy(j: Option<Json>) {
    match j
    case None => false
    case Some(v) =>
      match v
      case Null => false
      case Bool(b) => b
      case Num(n) => n != 0
      case Str(s) => s != ""
      case Coll(_, children) => children != []
  }

  /** The caller's metadata, when there is any, is a mapping. */
  predicate Acceptable(document: Json) {
    Dict(document) && (Lookup(document, "metadata").Some? ==> Dict(Lookup(document, "metadata").value))
  }

  lemma SweptDict(patterns: seq<Pattern>, j: Json)
    requires Dict(j)
    ensures Dict(Swept(patterns, j))
    ensures forall key :: Lookup(Swept(patterns, j), key)
                          == if Lookup(j, key).None? then None else Some(SweptChild(patterns, Lookup(j, key).value))
  {
    hide Position, SweptChild;
    CollSwept(patterns, j);
  }

  function SweptMetadata(env: Env, document: Json): (m: Json)
    requires Acceptable(document)
    ensures Dict(m)
  {
    if Lookup(document, "metadata").None? then EmptyDict()
    else
      SweptDict(env.patterns, Lookup(document, "metadata").value);
      Swept(env.patterns, Lookup(document, "metadata").value)
  }

  function Metadata(env: Env, document: Json): (m: Json)
    requires Acceptable(document)
    ensures Dict(m)
  {
    var m := SweptMetadata(env, document);
    var m1 := Put(m, "redacted", Bool(true));
    var m2 := Put(m1, "redactionsApplied",
                  Bool(Truthy(Lookup(m1, "redactionsApplied")) || SomeRedacted(env.patterns, document)));
    Put(m2, "truncated", Bool(Truthy(Lookup(m2, "truncated")) || SomeTruncated(env.patterns, document)))
  }

  /** The checks of the swept document; anything but a list counts as none. */
  function Checks(env: Env, document: Json): seq<Json>
    requires Dict(document)
  {
    SweptDict(env.patterns, document);
    match Lookup(Swept(env.patterns, document), "checks")
    case Some(Coll(Listing, children)) => children
    case _ => []
  }

  /** The document with its metadata and its checks in place. */
  function Assembled(base: Json, metadata: Json, checks: seq<Json>): (r: Json)
    requires Dict(base)
    ensures Dict(r)
  {
    Put(Put(base, "metadata", metadata), "checks", Coll(Listing, checks))
  }

  function Base(env: Env, document: Json): (r: Json)
    requires Dict(document)
    ensures Dict(r)
  {
    SweptDict(env.patterns, document);
    Swept(env.patterns, document)
  }

  /** The metadata once `k` checks are left. */
  function MetadataWith(env: Env, document: Json, k: nat): (m: Json)
    requires Acceptable(document) && k <= |Checks(env, document)|
    ensures Dict(m)
  {
    var m := Metadata(env, document);
    if k < |Checks(env, document)| then Put(m, "truncated", Bool(true)) else m
  }

  /** The document with its first `k` checks. */
  function WithChecks(env: Env, document: Json, k: nat): (r: Json)
    requires Acceptable(document) && k <= |Checks(env, document)|
    ensures Dict(r)
  {
    Assembled(Base(env, document), MetadataWith(env, document, k), Checks(env, document)[..k])
  }

  /** How many checks are left once checks were dropped from the tail. */
  function KeptChecks(env: Env, document: Json, maxBytes: nat, k: nat): (r: nat)
    requires Acceptable(document) && k <= |Checks(env, document)|
    ensures r <= k
  {
    if k > 0 && env.size(WithChecks(env, document, k)) > maxBytes then KeptChecks(env, document, maxBytes, k - 1) else k
  }

  function ShowText(env: Env, value: Json): string {
    match value
    case Str(s) => s
    case Null => ""
    case _ => env.show(value)
  }

  /** The summary and the subject's title cut short. */
  function ShrunkBase(env: Env, base: Json): (r: (Json, bool))
    requires Dict(base)
    ensures Dict(r.0)
  {
    var summary := Redacted(env.patterns, ShowText(env, Lookup(base, "summary").GetOr(Str(""))), 256);
    var b1 := Put(base, "summary", Str(summary.text));
    match Lookup(b1, "subject")
    case Some(subject) =>
      if Dict(subject) && Lookup(subject, "title").Some? then
        var title := Redacted(env.patterns, ShowText(env, Lookup(subject, "title").value), 128);
        (Put(b1, "subject", Put(subject, "title", Str(title.text))), summary.redacted || title.redacted)
      else (b1, summary.redacted)
    case None => (b1, summary.redacted)
  }

  /** The document without checks, shrunk. */
  function Shrunk(env: Env, document: Json): (r: Json)
    requires Acceptable(document)
    ensures Dict(r)
  {
    var base := ShrunkBase(env, Base(env, document));
    var m := MetadataWith(env, document, 0);
    var m1 := if base.1 then Put(m, "redactionsApplied", Bool(true)) else m;
    Assembled(base.0, Put(m1, "truncated", Bool(true)), [])
  }

  function OneOf(value: Option<Json>, allowed: seq<string>, otherwise: string): Json {
    if value.Some? && value.value.Str? && value.value.s in allowed then value.value else Str(otherwise)
  }

  /** The smallest document that is still valid. */
  function Minimal(env: Env, document: Json): Json
    requires Dict(document)
  {
    var version := if |env.version| > 64 then env.version[..64] else env.version;
    var passed := Lookup(document, "passed");
    Coll(Keyed(["$schema", "schemaVersion", "producer", "command", "generatedAt", "scope", "outcome", "passed",
                "summary", "checks", "metadata"]),
         [Str("https://gitreins.dev/schemas/evidence/v1.json"), Str("1.0"),
          Coll(Keyed(["name", "version"]), [Str("gitreins"), Str(version)]),
          OneOf(Lookup(document, "command"), ["guard", "judge", "report"], "guard"),
          Lookup(document, "generatedAt").GetOr(Str(env.now)),
          OneOf(Lookup(document, "scope"), ["staged", "working-tree", "history"], "staged"),
          OneOf(Lookup(document, "outcome"), ["pass", "fail", "error", "unknown"], "unknown"),
          if passed.Some? && passed.value.Bool? then passed.value else Null,
          Str("Evidence exceeded the output limit"), Coll(Listing, []),
          Coll(Keyed(["redacted", "redactionsApplied", "truncated"]), [Bool(true), Bool(true), Bool(true)])])
  }

  /** The document that is encoded. */
  function Bounded(env: Env, document: Json, maxBytes: nat): Json
    requires Acceptable(document)
  {
    var k := KeptChecks(env, document, maxBytes, |Checks(env, document)|);
    if env.size(WithChecks(env, document, k)) <= maxBytes then WithChecks(env, document, k)
    else if env.size(Shrunk(env, document)) <= maxBytes then Shrunk(env, document)
    else Minimal(env, document)
  }

  /** The caller's document is read and never changed: the sweep rewrites a copy. */
  method DumpsEvidence(env: Env, document: Node, maxBytes: nat) returns (payload: Json)
    requires document.Valid() && Acceptable(document.View())
    ensures payload == Bounded(env, document.View(), maxBytes)
    ensures document.Valid() && document.View() == old(document.View())
  {
    hide Tree, ViewIn, Snapshot, Bounded, Acceptable;
    ghost var given := document.View();
    var bounded := DeepCopy(document);
    var redacted, truncated := RedactDocument(env.patterns, bounded);
    var swept := ToJson(bounded);
    var original := ToJson(document);
    assert original == given;
    payload := Fit(env, original, swept, redacted, truncated, maxBytes);
  }

  /** The swept document cut to the ceiling. */
  method Fit(env: Env, document: Json, bounded: Json, redacted: bool, truncated: bool, maxBytes: nat)
    returns (payload: Json)
    requires Acceptable(document) && bounded == Swept(env.patterns, document)
    requires redacted == SomeRedacted(env.patterns, document) && truncated == SomeTruncated(env.patterns, document)
    ensures payload == Bounded(env, document, maxBytes)
  {
    hide Swept, SomeRedacted, SomeTruncated, Lookup, Put, Truthy, Minimal, ShrunkBase, Checks, SweptMetadata;
    assert bounded == Base(env, document);
    var metadata := SweptMetadata(env, document);
    metadata := Put(metadata, "redacted", Bool(true));
    metadata := Put(metadata, "redactionsApplied", Bool(Truthy(Lookup(metadata, "redactionsApplied")) || redacted));
    metadata := Put(metadata, "truncated", Bool(Truthy(Lookup(metadata, "truncated")) || truncated));
    assert metadata == Metadata(env, document);
    var all := Checks(env, document);
    var checks := all;
    assert all[..|all|] == all;
    payload := Assembled(bounded, metadata, checks);
    while env.size(payload) > maxBytes && checks != []
      invariant Dict(metadata) && |checks| <= |all| && checks == all[..|checks|]
      invariant metadata == MetadataWith(env, document, |checks|)
      invariant payload == WithChecks(env, document, |checks|)
      invariant KeptChecks(env, document, maxBytes, |all|) == KeptChecks(env, document, maxBytes, |checks|)
      decreases |checks|
    {
      checks := checks[..|checks| - 1];
      metadata := Put(metadata, "truncated", Bool(true));
      TruncatedTwice(env, document, |checks|);
      payload := Assembled(bounded, metadata, checks);
    }
    if env.size(payload) > maxBytes {
      var base := ShrunkBase(env, bounded);
      var m1 := if base.1 then Put(metadata, "redactionsApplied", Bool(true)) else metadata;
      metadata := Put(m1, "truncated", Bool(true));
      payload := Assembled(base.0, metadata, []);
      if env.size(payload) > maxBytes {
        payload := Minimal(env, document);
      }
    }
  }

  lemma PutTwice(j: Json, key: string, a: Json, b: Json)
    requires Dict(j)
    ensures Put(Put(j, key, a), key, b) == Put(j, key, b)
  {
    hide Position;
    PositionAppend(j.kind.keys, key, key);
  }

  lemma TruncatedTwice(env: Env, document: Json, k: nat)
    requires Acceptable(document) && k < |Checks(env, document)|
    ensures Put(MetadataWith(env, document, k + 1), "truncated", Bool(true)) == MetadataWith(env, document, k)
  {
    hide Put, Metadata, Checks;
    PutTwice(Metadata(env, document), "truncated", Bool(true), Bool(true));
  }

  // ---- What the ceiling guarantees ----

  lemma {:induction false} KeptIsLargest(env: Env, document: Json, maxBytes: nat, k: nat)
    requires Acceptable(document) && k <= |Checks(env, document)|
    ensures var r := KeptChecks(env, document, maxBytes, k);
            && (env.size(WithChecks(env, document, r)) <= maxBytes || r == 0)
            && forall j :: r < j <= k ==> env.size(WithChecks(env, document, j)) > maxBytes
  {
    hide WithChecks, Checks;
    if k > 0 && env.size(WithChecks(env, document, k)) > maxBytes {
      KeptIsLargest(env, document, maxBytes, k - 1);
    }
  }

  /** The document is under the ceiling whenever the minimal one would be; and the
      minimal one is used only when no other will do. */
  lemma UnderTheCeilingIff(env: Env, document: Json, maxBytes: nat)
    requires Acceptable(document)
    ensures env.size(Bounded(env, document, maxBytes)) <= maxBytes
            <==> || env.size(Minimal(env, document)) <= maxBytes
                 || env.size(Shrunk(env, document)) <= maxBytes
                 || exists k: nat :: k <= |Checks(env, document)| && env.size(WithChecks(env, document, k)) <= maxBytes
  {
    hide WithChecks, Checks, Minimal, Shrunk, KeptChecks;
    KeptIsLargest(env, document, maxBytes, |Checks(env, document)|);
  }

  function ChecksIn(j: Json): seq<Json>
    requires Dict(j)
  {
    match Lookup(j, "checks")
    case Some(Coll(Listing, children)) => children
    case _ => []
  }

  function MetadataIn(j: Json): Option<Json>
    requires Dict(j)
  {
    Lookup(j, "metadata")
  }

  lemma AssembledParts(base: Json, metadata: Json, checks: seq<Json>)
    requires Dict(base)
    ensures ChecksIn(Assembled(base, metadata, checks)) == checks
    ensures MetadataIn(Assembled(base, metadata, checks)) == Some(metadata)
  {
    hide Lookup, Put;
    var b1 := Put(base, "metadata", metadata);
    LookupPut(base, "metadata", metadata, "metadata");
    LookupPut(b1, "checks", Coll(Listing, checks), "checks");
    LookupPut(b1, "checks", Coll(Listing, checks), "metadata");
  }

  lemma MinimalParts(env: Env, document: Json)
    requires Dict(document)
    ensures Dict(Minimal(env, document)) && ChecksIn(Minimal(env, document)) == []
    ensures var m := MetadataIn(Minimal(env, document));
            m.Some? && Dict(m.value) && Lookup(m.value, "truncated") == Some(Bool(true))
  {
    hide OneOf, Position;
    var j := Minimal(env, document);
    var keys := j.kind.keys;
    assert Position(keys, "checks") == 9 by { KeyAt(keys, 9); }
    assert Position(keys, "metadata") == 10 by { KeyAt(keys, 10); }
    var flags := j.children[10].kind.keys;
    assert Position(flags, "truncated") == 2 by { KeyAt(flags, 2); }
  }

  lemma {:induction false} KeyAt(keys: seq<string>, i: nat)
    requires i < |keys| && forall k :: 0 <= k < i ==> keys[k] != keys[i]
    ensures Position(keys, keys[i]) == i
  {
  }

  /** The checks kept are a prefix of the swept checks, as long a one as fits; a
      document that lost any says that it is truncated. */
  lemma KeptChecksAreAPrefix(env: Env, document: Json, maxBytes: nat)
    requires Acceptable(document)
    ensures var r := Bounded(env, document, maxBytes);
            && Dict(r) && ChecksIn(r) <= Checks(env, document)
            && (forall j: nat :: |ChecksIn(r)| < j <= |Checks(env, document)| ==>
                  env.size(WithChecks(env, document, j)) > maxBytes)
            && (ChecksIn(r) != Checks(env, document) ==> SaysTruncated(r))
  {
    hide WithChecks, Checks, Minimal, Shrunk, KeptChecks, ChecksIn, SaysTruncated, Lookup;
    var n := |Checks(env, document)|;
    var k := KeptChecks(env, document, maxBytes, n);
    KeptIsLargest(env, document, maxBytes, n);
    WithChecksParts(env, document, k);
    ShrunkParts(env, document);
    MinimalSays(env, document);
    assert Checks(env, document)[..n] == Checks(env, document);
  }

  predicate SaysTruncated(j: Json)
    requires Dict(j)
  {
    MetadataIn(j).Some? && Dict(MetadataIn(j).value) && Lookup(MetadataIn(j).value, "truncated") == Some(Bool(true))
  }

  lemma MinimalSays(env: Env, document: Json)
    requires Dict(document)
    ensures Dict(Minimal(env, document)) && ChecksIn(Minimal(env, document)) == [] && SaysTruncated(Minimal(env, document))
  {
    hide Minimal, Lookup, ChecksIn;
    MinimalParts(env, document);
  }

  lemma WithChecksParts(env: Env, document: Json, k: nat)
    requires Acceptable(document) && k <= |Checks(env, document)|
    ensures ChecksIn(WithChecks(env, document, k)) == Checks(env, document)[..k]
    ensures k < |Checks(env, document)| ==> SaysTruncated(WithChecks(env, document, k))
  {
    hide Assembled, Checks, Metadata, Base, ChecksIn, MetadataIn, Lookup, Put;
    AssembledParts(Base(env, document), MetadataWith(env, document, k), Checks(env, document)[..k]);
    LookupPut(Metadata(env, document), "truncated", Bool(true), "truncated");
  }

  lemma ShrunkParts(env: Env, document: Json)
    requires Acceptable(document)
    ensures ChecksIn(Shrunk(env, document)) == [] && SaysTruncated(Shrunk(env, document))
  {
    hide Assembled, Checks, MetadataWith, Base, ChecksIn, MetadataIn, Lookup, Put, ShrunkBase;
    var base := ShrunkBase(env, Base(env, document));
    var m := MetadataWith(env, document, 0);
    var m1 := if base.1 then Put(m, "redactionsApplied", Bool(true)) else m;
    AssembledParts(base.0, Put(m1, "truncated", Bool(true)), []);
    LookupPut(m1, "truncated", Bool(true), "truncated");
  }

  /** What a document's metadata says under `key`. */
  function FactIn(j: Json, key: string): Option<Json> {
    if Dict(j) && MetadataIn(j).Some? && Dict(MetadataIn(j).value) then Lookup(MetadataIn(j).value, key) else None
  }

  /** Some candidate other than the last resort is within the ceiling. */
  ghost predicate SomeCandidateFits(env: Env, document: Json, maxBytes: nat)
    requires Acceptable(document)
  {
    || env.size(Shrunk(env, document)) <= maxBytes
    || exists k: nat :: k <= |Checks(env, document)| && env.size(WithChecks(env, document, k)) <= maxBytes
  }

  /** A fact that the run recorded about itself, such as how many checks it produced, is
      in the encoded document exactly when some candidate other than the last resort is
      within the ceiling. */
  lemma FactSurvivesIff(env: Env, document: Json, maxBytes: nat, key: string)
    requires Acceptable(document) && key !in {"redacted", "redactionsApplied", "truncated"}
    requires Lookup(SweptMetadata(env, document), key).Some?
    ensures FactIn(Bounded(env, document, maxBytes), key) == Lookup(SweptMetadata(env, document), key)
            <==> SomeCandidateFits(env, document, maxBytes)
  {
    hide WithChecks, Checks, Minimal, Shrunk, KeptChecks, FactIn, SweptMetadata, Lookup;
    var k := KeptChecks(env, document, maxBytes, |Checks(env, document)|);
    KeptIsLargest(env, document, maxBytes, |Checks(env, document)|);
    FactWithChecks(env, document, k, key);
    FactShrunk(env, document, key);
    LastResortForgets(env, document, key);
  }

  lemma FactWithChecks(env: Env, document: Json, k: nat, key: string)
    requires Acceptable(document) && k <= |Checks(env, document)|
    requires key !in {"redacted", "redactionsApplied", "truncated"}
    ensures FactIn(WithChecks(env, document, k), key) == Lookup(SweptMetadata(env, document), key)
  {
    hide Assembled, Checks, Base, MetadataIn, Lookup, Put, SweptMetadata, MetadataWith;
    FactInMetadata(env, document, k, key);
    AssembledParts(Base(env, document), MetadataWith(env, document, k), Checks(env, document)[..k]);
  }

  lemma FactShrunk(env: Env, document: Json, key: string)
    requires Acceptable(document) && key !in {"redacted", "redactionsApplied", "truncated"}
    ensures FactIn(Shrunk(env, document), key) == Lookup(SweptMetadata(env, document), key)
  {
    hide Assembled, Checks, Base, MetadataIn, Lookup, Put, ShrunkBase, SweptMetadata, MetadataWith;
    FactInMetadata(env, document, 0, key);
    var base := ShrunkBase(env, Base(env, document));
    var m := MetadataWith(env, document, 0);
    var m1 := if base.1 then Put(m, "redactionsApplied", Bool(true)) else m;
    LookupPut(m, "redactionsApplied", Bool(true), key);
    LookupPut(m1, "truncated", Bool(true), key);
    AssembledParts(base.0, Put(m1, "truncated", Bool(true)), []);
  }

  /** The last resort keeps none of them. */
  lemma LastResortForgets(env: Env, document: Json, key: string)
    requires Dict(document) && key !in {"redacted", "redactionsApplied", "truncated"}
    ensures FactIn(Minimal(env, document), key) == None
  {
    hide OneOf, Position;
    var j := Minimal(env, document);
    assert Position(j.kind.keys, "metadata") == 10 by { KeyAt(j.kind.keys, 10); }
    var flags := j.children[10].kind.keys;
    assert flags == ["redacted", "redactionsApplied", "truncated"];
  }

  /** What holds of a JSON encoder: a document takes at least one byte for each character
      of a string in it. */
  ghost predicate SpellsStrings(env: Env) {
    forall j: Json, key: string ::
      Dict(j) && Lookup(j, key).Some? && Lookup(j, key).value.Str? ==> |Lookup(j, key).value.s| <= env.size(j)
  }

  /** A field of its own, with a string that is over the ceiling and in which nothing is
      redacted. */
  predicate TooLongField(env: Env, document: Json, field: string, maxBytes: nat)
    requires Dict(document)
  {
    && field !in {"metadata", "checks", "summary", "subject"}
    && Lookup(document, field).Some? && Lookup(document, field).value.Str?
    && var s := Lookup(document, field).value.s;
       !Scrubbed(env.patterns, s).1 && |s| > maxBytes
  }

  /** Such a field is in every candidate but the last resort, so with any encoder every
      fact the run recorded about itself is lost. */
  lemma LongFieldForgets(env: Env, document: Json, maxBytes: nat, field: string, key: string)
    requires Acceptable(document) && key !in {"redacted", "redactionsApplied", "truncated"}
    requires SpellsStrings(env) && TooLongField(env, document, field, maxBytes)
    ensures FactIn(Bounded(env, document, maxBytes), key) == None
  {
    hide WithChecks, Checks, Minimal, Shrunk, KeptChecks, FactIn, Lookup, Swept, Scrubbed;
    var text := Lookup(document, field).value;
    SweptDict(env.patterns, document);
    assert Lookup(Base(env, document), field) == Some(text);
    forall k: nat | k <= |Checks(env, document)| ensures env.size(WithChecks(env, document, k)) > maxBytes {
      FieldWithChecks(env, document, k, field);
    }
    FieldShrunk(env, document, field);
    KeptIsLargest(env, document, maxBytes, |Checks(env, document)|);
    LastResortForgets(env, document, key);
  }

  lemma FieldAssembled(base: Json, metadata: Json, checks: seq<Json>, field: string)
    requires Dict(base) && field !in {"metadata", "checks"}
    ensures Lookup(Assembled(base, metadata, checks), field) == Lookup(base, field)
  {
    hide Lookup, Put;
    LookupPut(base, "metadata", metadata, field);
    LookupPut(Put(base, "metadata", metadata), "checks", Coll(Listing, checks), field);
  }

  lemma FieldWithChecks(env: Env, document: Json, k: nat, field: string)
    requires Acceptable(document) && k <= |Checks(env, document)| && field !in {"metadata", "checks"}
    ensures Lookup(WithChecks(env, document, k), field) == Lookup(Base(env, document), field)
  {
    hide Lookup, Assembled, Checks, Base, MetadataWith;
    FieldAssembled(Base(env, document), MetadataWith(env, document, k), Checks(env, document)[..k], field);
  }

  lemma FieldShrunk(env: Env, document: Json, field: string)
    requires Acceptable(document) && field !in {"metadata", "checks", "summary", "subject"}
    ensures Lookup(Shrunk(env, document), field) == Lookup(Base(env, document), field)
  {
    hide Lookup, Put, Assembled, Checks, Base, MetadataWith, ShrunkBase;
    var base := ShrunkBase(env, Base(env, document));
    var m := MetadataWith(env, document, 0);
    var m1 := if base.1 then Put(m, "redactionsApplied", Bool(true)) else m;
    FieldAssembled(base.0, Put(m1, "truncated", Bool(true)), [], field);
    FieldShrunkBase(env, Base(env, document), field);
  }

  lemma FieldShrunkBase(env: Env, base: Json, field: string)
    requires Dict(base) && field !in {"summary", "subject"}
    ensures Lookup(ShrunkBase(env, base).0, field) == Lookup(base, field)
  {
    hide Put, Lookup, Redacted, ShowText;
    var summary := Redacted(env.patterns, ShowText(env, Lookup(base, "summary").GetOr(Str(""))), 256);
    var b1 := Put(base, "summary", Str(summary.text));
    LookupPut(base, "summary", Str(summary.text), field);
    if Lookup(b1, "subject").Some? && Dict(Lookup(b1, "subject").value) && Lookup(Lookup(b1, "subject").value, "title").Some? {
      var subject := Lookup(b1, "subject").value;
      var title := Redacted(env.patterns, ShowText(env, Lookup(subject, "title").value), 128);
      LookupPut(b1, "subject", Put(subject, "title", Str(title.text)), field);
    }
  }

  /** A document that records three checks and holds a long note. */
  function Noted(note: string): Json {
    Coll(Keyed(["metadata", "note"]), [Coll(Keyed(["checkCount"]), [Num(3)]), Str(note)])
  }

  lemma NotedFields(env: Env, note: string)
    ensures Acceptable(Noted(note)) && Lookup(Noted(note), "note") == Some(Str(note))
    ensures Lookup(SweptMetadata(env, Noted(note)), "checkCount") == Some(Num(3))
  {
    hide Swept, Position;
    var document := Noted(note);
    KeyAt(["metadata", "note"], 0);
    KeyAt(["metadata", "note"], 1);
    KeyAt(["checkCount"], 0);
    assert Lookup(document, "metadata") == Some(document.children[0]);
    SweptDict(env.patterns, document.children[0]);
    LeafSwept(env.patterns, Num(3));
  }

  /** Its count is lost once the note alone is over the ceiling. */
  lemma CheckCountLost(env: Env, note: string, maxBytes: nat)
    requires SpellsStrings(env) && NothingFound(env.patterns, note) && |note| > maxBytes
    ensures Acceptable(Noted(note)) && Lookup(SweptMetadata(env, Noted(note)), "checkCount") == Some(Num(3))
    ensures FactIn(Bounded(env, Noted(note), maxBytes), "checkCount") == None
  {
    hide Bounded, FactIn, Scrubbed, SpellsStrings, Lookup, SweptMetadata, Acceptable, NothingFound;
    NotedFields(env, note);
    NothingScrubbed(env.patterns, note);
    LongFieldForgets(env, Noted(note), maxBytes, "note", "checkCount");
  }

  lemma FactInMetadata(env: Env, document: Json, k: nat, key: string)
    requires Acceptable(document) && k <= |Checks(env, document)|
    requires key !in {"redacted", "redactionsApplied", "truncated"}
    ensures Lookup(MetadataWith(env, document, k), key) == Lookup(SweptMetadata(env, document), key)
  {
    hide Lookup, Put, SweptMetadata, Truthy, Checks, SomeRedacted, SomeTruncated;
    var m := SweptMetadata(env, document);
    var m1 := Put(m, "redacted", Bool(true));
    var applied := Bool(Truthy(Lookup(m1, "redactionsApplied")) || SomeRedacted(env.patterns, document));
    var m2 := Put(m1, "redactionsApplied", applied);
    var cut := Bool(Truthy(Lookup(m2, "truncated")) || SomeTruncated(env.patterns, document));
    LookupPut(m, "redacted", Bool(true), key);
    LookupPut(m1, "redactionsApplied", applied, key);
    LookupPut(m2, "truncated", cut, key);
    LookupPut(Metadata(env, document), "truncated", Bool(true), key);
  }
}
