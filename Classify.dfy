/** Deciding from an error message whether the primary provider refused a
    request for quota or rate-limit reasons. */
module Classify {
  import opened Strings

  /** The keyword list tested inside the retry loop. */
  const LoopKeywords: seq<string> := ["429", "quota", "resource", "exhausted", "limit"]

  /** The keyword list tested after the loop to decide on the fallback: the
      same words, listed in another order. */
  const FallbackKeywords: seq<string> := ["quota", "429", "resource", "exhausted", "limit"]

  /** `any(k in str(e).lower() for k in keywords)`. */
  predicate MentionsAny(keywords: seq<string>, message: string)
  {
    AnyIn(keywords, Lower(message))
  }

  /** The test the retry loop applies to each failure. */
  predicate IsQuotaError(message: string)
  {
    MentionsAny(LoopKeywords, message)
  }

  /** An error is quota-class exactly when its lower-cased message contains
      one of the five keywords. */
  lemma QuotaIffKeyword(message: string)
    ensures IsQuotaError(message) <==>
      var m := Lower(message);
      Contains(m, "429") || Contains(m, "quota") || Contains(m, "resource")
      || Contains(m, "exhausted") || Contains(m, "limit")
  {
    AnyInIff(LoopKeywords, Lower(message));
    assert forall k :: k in LoopKeywords <==>
      k == "429" || k == "quota" || k == "resource" || k == "exhausted" || k == "limit";
  }

  /** The fallback decision uses the same test as the retry loop, although
      its keyword list is written in a different order. */
  lemma FallbackTestIsLoopTest(message: string)
    ensures MentionsAny(FallbackKeywords, message) == IsQuotaError(message)
  {
    var m := Lower(message);
    AnyInIff(LoopKeywords, m);
    AnyInIff(FallbackKeywords, m);
    assert forall k :: k in LoopKeywords <==> k in FallbackKeywords;
  }

  /** The test ignores the case of ASCII letters in the message. */
  lemma QuotaIgnoresCase(message: string)
    ensures IsQuotaError(Lower(message)) == IsQuotaError(message)
    ensures IsQuotaError(Upper(message)) == IsQuotaError(message)
  {
    LowerIdempotent(message);
    LowerOfUpper(message);
  }

  /** A rate-limit reply is a quota error. */
  lemma TooManyRequestsIsQuota()
    ensures IsQuotaError("429 Too Many Requests")
  {
    var m := Lower("429 Too Many Requests");
    assert m[..3] == "429";
    OccursIsContained(m, "429", 0);
    QuotaIffKeyword("429 Too Many Requests");
  }

  /** Upper-case wording is recognised too. */
  lemma ResourceExhaustedIsQuota()
    ensures IsQuotaError("RESOURCE_EXHAUSTED")
  {
    var m := Lower("RESOURCE_EXHAUSTED");
    assert m[..8] == "resource";
    OccursIsContained(m, "resource", 0);
    QuotaIffKeyword("RESOURCE_EXHAUSTED");
  }

  /** A message lacking one letter of each keyword mentions none of them. */
  lemma NoKeywordLetters(m: string)
    requires '2' !in m && 'q' !in m && 'r' !in m && 'x' !in m && 'l' !in m
    ensures !Contains(m, "429") && !Contains(m, "quota") && !Contains(m, "resource")
    ensures !Contains(m, "exhausted") && !Contains(m, "limit")
  {
    MissingCharNotContained(m, "429", 1);
    MissingCharNotContained(m, "quota", 0);
    MissingCharNotContained(m, "resource", 0);
    MissingCharNotContained(m, "exhausted", 1);
    MissingCharNotContained(m, "limit", 0);
  }

  /** A missing-model error is not a quota error. */
  lemma NotFoundIsNotQuota()
    ensures !IsQuotaError("404 Not Found")
  {
    var m := Lower("404 Not Found");
    assert m == "404 not found";
    NoKeywordLetters(m);
    QuotaIffKeyword("404 Not Found");
  }
}
