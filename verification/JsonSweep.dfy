/** What redacting a text and sweeping a JSON document mean.
    (engine/evidence.py, redact_text and redact_document) */
module JsonSweep {

  datatype Kind = Listing | Keyed(keys: seq<string>)

  /** A document; a dict is its keys and, in the same order, its values. */
  datatype Json = Null | Bool(b: bool) | Num(n: int) | Str(s: string) | Coll(kind: Kind, children: seq<Json>)

  /** One substitution: the text after it, and how many spans it replaced. */
  type Pattern = string -> (string, nat)

  const TRUNCATION_MARKER := "[truncated]"
  const MAX_TEXT_CHARS: nat := 2048

  datatype Redaction = Redaction(text: string, redacted: bool, truncated: bool)

  /** Every substitution in turn. */
  function Scrubbed(patterns: seq<Pattern>, text: string): (string, bool)
    decreases |patterns|
  {
    if patterns == [] then (text, false)
    else
      var n := |patterns| - 1;
      var before := Scrubbed(patterns[..n], text);
      var hit := patterns[n](before.0);
      (hit.0, before.1 || hit.1 > 0)
  }

  function Capped(text: string, limit: nat): string {
    if |text| <= limit then text
    else text[..if limit > |TRUNCATION_MARKER| then limit - |TRUNCATION_MARKER| else 0] + TRUNCATION_MARKER
  }

  function Redacted(patterns: seq<Pattern>, text: string, limit: nat): Redaction {
    var scrubbed := Scrubbed(patterns, text);
    Redaction(Capped(scrubbed.0, limit), scrubbed.1, |scrubbed.0| > limit)
  }

  method RedactText(patterns: seq<Pattern>, value: string, limit: nat) returns (r: Redaction)
    ensures r == Redacted(patterns, value, limit)
  {
    var text, redacted := value, false;
    var i := 0;
    while i < |patterns|
      invariant i <= |patterns| && (text, redacted) == Scrubbed(patterns[..i], value)
    {
      assert patterns[..i + 1][..i] == patterns[..i];
      var hit := patterns[i](text);
      text := hit.0;
      redacted := redacted || hit.1 > 0;
      i := i + 1;
    }
    assert patterns[..i] == patterns;
    var truncated := |text| > limit;
    if truncated {
      text := text[..if limit > |TRUNCATION_MARKER| then limit - |TRUNCATION_MARKER| else 0] + TRUNCATION_MARKER;
    }
    r := Redaction(text, redacted, truncated);
  }

  /** A truncated text is exactly as long as the limit, provided the marker fits in it. */
  lemma CapIsExact(patterns: seq<Pattern>, text: string, limit: nat)
    requires Redacted(patterns, text, limit).truncated
    ensures |Redacted(patterns, text, limit).text| == limit <==> limit >= 11
    ensures |Redacted(patterns, text, limit).text| >= 11
    ensures Redacted(patterns, text, limit).text[|Redacted(patterns, text, limit).text| - 11..] == TRUNCATION_MARKER
  {
    hide Scrubbed;
    assert |TRUNCATION_MARKER| == 11;
  }

  // ---- What a sweep means ----

  /** A string is rewritten only when something in it was redacted. */
  function SweptText(patterns: seq<Pattern>, s: string): string {
    var r := Redacted(patterns, s, MAX_TEXT_CHARS);
    if r.redacted then r.text else s
  }

  function SweptChild(patterns: seq<Pattern>, c: Json): Json
    decreases c, 1
  {
    if c.Str? then Str(SweptText(patterns, c.s)) else Swept(patterns, c)
  }

  /** Every string below the root rewritten; the shape and the keys untouched. */
  function Swept(patterns: seq<Pattern>, j: Json): Json
    decreases j, 0
  {
    if j.Coll? then
      Coll(j.kind, seq(|j.children|, i requires 0 <= i < |j.children| => SweptChild(patterns, j.children[i])))
    else j
  }

  /** Some string below the root was redacted. */
  predicate SomeRedacted(patterns: seq<Pattern>, j: Json)
    decreases j, 0
  {
    j.Coll? && exists i :: 0 <= i < |j.children| && ChildRedacted(patterns, j.children[i])
  }

  predicate ChildRedacted(patterns: seq<Pattern>, c: Json)
    decreases c, 1
  {
    if c.Str? then Redacted(patterns, c.s, MAX_TEXT_CHARS).redacted else SomeRedacted(patterns, c)
  }

  /** Some string below the root is over the cap. */
  predicate SomeTruncated(patterns: seq<Pattern>, j: Json)
    decreases j, 0
  {
    j.Coll? && exists i :: 0 <= i < |j.children| && ChildTruncated(patterns, j.children[i])
  }

  predicate ChildTruncated(patterns: seq<Pattern>, c: Json)
    decreases c, 1
  {
    if c.Str? then Redacted(patterns, c.s, MAX_TEXT_CHARS).truncated else SomeTruncated(patterns, c)
  }

  lemma LeafSwept(patterns: seq<Pattern>, j: Json)
    requires !j.Coll?
    ensures Swept(patterns, j) == j && !SomeRedacted(patterns, j) && !SomeTruncated(patterns, j)
  {
  }

  lemma CollSwept(patterns: seq<Pattern>, j: Json)
    requires j.Coll?
    ensures Swept(patterns, j).Coll? && Swept(patterns, j).kind == j.kind
    ensures |Swept(patterns, j).children| == |j.children|
    ensures forall i :: 0 <= i < |j.children| ==> Swept(patterns, j).children[i] == SweptChild(patterns, j.children[i])
  {
    hide SweptText;
  }

  // ---- What the sweep does about long strings ----

  /** A string is within the cap after the sweep exactly when something in it was
      redacted or it was within the cap before. */
  lemma SweptTextFitsIff(patterns: seq<Pattern>, s: string)
    ensures |SweptText(patterns, s)| <= MAX_TEXT_CHARS <==> Scrubbed(patterns, s).1 || |s| <= MAX_TEXT_CHARS
  {
    hide Scrubbed;
    assert |TRUNCATION_MARKER| == 11;
  }

  /** Every string below the root is within the cap. */
  predicate AllFit(j: Json)
    decreases j, 0
  {
    j.Coll? ==> forall i :: 0 <= i < |j.children| ==> ChildFits(j.children[i])
  }

  predicate ChildFits(c: Json)
    decreases c, 1
  {
    if c.Str? then |c.s| <= MAX_TEXT_CHARS else AllFit(c)
  }

  /** In every string below the root that is over the cap something is redacted. */
  predicate LongOnesRedacted(patterns: seq<Pattern>, j: Json)
    decreases j, 0
  {
    j.Coll? ==> forall i :: 0 <= i < |j.children| ==> ChildRedactedIfLong(patterns, j.children[i])
  }

  predicate ChildRedactedIfLong(patterns: seq<Pattern>, c: Json)
    decreases c, 1
  {
    if c.Str? then Scrubbed(patterns, c.s).1 || |c.s| <= MAX_TEXT_CHARS else LongOnesRedacted(patterns, c)
  }

  /** The sweep leaves every string of a document within the cap exactly when in every
      string over the cap something was redacted. */
  lemma {:induction false} SweptFitsIff(patterns: seq<Pattern>, j: Json)
    ensures AllFit(Swept(patterns, j)) <==> LongOnesRedacted(patterns, j)
    decreases j, 0
  {
    hide SweptText, Scrubbed;
    if j.Coll? {
      CollSwept(patterns, j);
      forall i | 0 <= i < |j.children|
        ensures ChildFits(Swept(patterns, j).children[i]) <==> ChildRedactedIfLong(patterns, j.children[i])
      {
        ChildFitsIff(patterns, j.children[i]);
      }
    }
  }

  lemma {:induction false} ChildFitsIff(patterns: seq<Pattern>, c: Json)
    ensures ChildFits(SweptChild(patterns, c)) <==> ChildRedactedIfLong(patterns, c)
    decreases c, 1
  {
    hide SweptText, Scrubbed;
    if c.Str? {
      SweptTextFitsIff(patterns, c.s);
    } else {
      SweptFitsIff(patterns, c);
      if !c.Coll? {
        LeafSwept(patterns, c);
      }
    }
  }

  /** No pattern finds anything in `s`. */
  predicate NothingFound(patterns: seq<Pattern>, s: string) {
    forall k :: 0 <= k < |patterns| ==> patterns[k](s) == (s, 0)
  }

  lemma {:induction false} NothingScrubbed(patterns: seq<Pattern>, s: string)
    requires NothingFound(patterns, s)
    ensures Scrubbed(patterns, s) == (s, false)
    decreases |patterns|
  {
    if patterns != [] {
      NothingScrubbed(patterns[..|patterns| - 1], s);
    }
  }

  /** A string over the cap in which no pattern finds anything: the sweep reports that it
      is truncated, and leaves it as long as it was. */
  lemma LongStringStays(patterns: seq<Pattern>, s: string)
    requires NothingFound(patterns, s) && |s| > MAX_TEXT_CHARS
    ensures var document := Coll(Listing, [Str(s)]);
            && Swept(patterns, document) == document && !AllFit(document)
            && SomeTruncated(patterns, document) && !SomeRedacted(patterns, document)
  {
    hide Scrubbed, NothingFound;
    NothingScrubbed(patterns, s);
    var document := Coll(Listing, [Str(s)]);
    var c := document.children[0];
    assert ChildTruncated(patterns, c) && !ChildRedacted(patterns, c);
    assert Swept(patterns, document).children == document.children;
    assert !ChildFits(c);
  }
}
