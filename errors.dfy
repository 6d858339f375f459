/**
 * The orchestrator's error type: its variants, their display text, and the
 * retryability and severity classifications used for metrics.
 */
module Errors {

  /**
   * Every variant carries its message. `Network`, `Serialization`, `Io` and
   * `Unknown` wrap a foreign error; their payload here is that error's display text.
   */
  datatype Error =
    | Config(msg: string)
    | Agent(msg: string)
    | Rag(msg: string)
    | Orchestration(msg: string)
    | Evaluation(msg: string)
    | Timeout(msg: string)
    | RateLimit(msg: string)
    | Auth(msg: string)
    | Validation(msg: string)
    | Network(msg: string)
    | Serialization(msg: string)
    | Io(msg: string)
    | Internal(msg: string)
    | Unknown(msg: string)

  datatype ErrorSeverity = Low | Medium | High | Critical

  /** `severity`: the level reported to metrics. */
  function Severity(e: Error): (s: ErrorSeverity)
    ensures s == Critical <==> e.Config? || e.Auth?
    ensures s == High <==> e.Agent? || e.Orchestration?
    ensures s == Low <==> e.Validation?
  {
    match e
    case Config(_) => Critical
    case Auth(_) => Critical
    case Agent(_) => High
    case Orchestration(_) => High
    case Timeout(_) => Medium
    case RateLimit(_) => Medium
    case Validation(_) => Low
    case _ => Medium
  }

  /**
   * `is_retryable`: true exactly for network failures, timeouts and rate limits.
   * Every retryable error is of medium severity, so nothing High or Critical
   * is ever retried.
   */
  function IsRetryable(e: Error): (b: bool)
    ensures b <==> e.Network? || e.Timeout? || e.RateLimit?
    ensures b ==> Severity(e) == Medium
    ensures Severity(e) == High || Severity(e) == Critical ==> !b
  {
    match e
    case Network(_) => true
    case Timeout(_) => true
    case RateLimit(_) => true
    case _ => false
  }

  /** The fixed text each variant puts before its payload when displayed. */
  function Prefix(e: Error): (p: string)
    ensures |p| >= 2
  {
    match e
    case Config(_) => "Configuration error: "
    case Agent(_) => "Agent error: "
    case Rag(_) => "RAG error: "
    case Orchestration(_) => "Orchestration error: "
    case Evaluation(_) => "Evaluation error: "
    case Timeout(_) => "Operation timed out: "
    case RateLimit(_) => "Rate limit exceeded: "
    case Auth(_) => "Authentication failed: "
    case Validation(_) => "Validation failed: "
    case Network(_) => "Network error: "
    case Serialization(_) => "Serialization error: "
    case Io(_) => "IO error: "
    case Internal(_) => "Internal error: "
    case Unknown(_) => "Unknown error: "
  }

  /** The `Display` text: the variant's prefix followed by the payload. */
  function Display(e: Error): (s: string)
    ensures |Prefix(e)| <= |s| && s[..|Prefix(e)|] == Prefix(e) && s[|Prefix(e)|..] == e.msg
  {
    Prefix(e) + e.msg
  }

  /** Position of the variant in the declaration. */
  function VariantIndex(e: Error): nat {
    match e
    case Config(_) => 0
    case Agent(_) => 1
    case Rag(_) => 2
    case Orchestration(_) => 3
    case Evaluation(_) => 4
    case Timeout(_) => 5
    case RateLimit(_) => 6
    case Auth(_) => 7
    case Validation(_) => 8
    case Network(_) => 9
    case Serialization(_) => 10
    case Io(_) => 11
    case Internal(_) => 12
    case Unknown(_) => 13
  }

  /** The first two letters of each prefix. */
  function Head(e: Error): (char, char) {
    match e
    case Config(_) => ('C', 'o')
    case Agent(_) => ('A', 'g')
    case Rag(_) => ('R', 'A')
    case Orchestration(_) => ('O', 'r')
    case Evaluation(_) => ('E', 'v')
    case Timeout(_) => ('O', 'p')
    case RateLimit(_) => ('R', 'a')
    case Auth(_) => ('A', 'u')
    case Validation(_) => ('V', 'a')
    case Network(_) => ('N', 'e')
    case Serialization(_) => ('S', 'e')
    case Io(_) => ('I', 'O')
    case Internal(_) => ('I', 'n')
    case Unknown(_) => ('U', 'n')
  }

  lemma PrefixHead(e: Error)
    ensures Prefix(e)[0] == Head(e).0 && Prefix(e)[1] == Head(e).1
  {
    if VariantIndex(e) < 7 {
      PrefixHeadLow(e);
    } else {
      PrefixHeadHigh(e);
    }
  }

  lemma PrefixHeadLow(e: Error)
    requires VariantIndex(e) < 7
    ensures Prefix(e)[0] == Head(e).0 && Prefix(e)[1] == Head(e).1
  {
    match e
    case Config(_) =>
    case Agent(_) =>
    case Rag(_) =>
    case Orchestration(_) =>
    case Evaluation(_) =>
    case Timeout(_) =>
    case RateLimit(_) =>
  }

  lemma PrefixHeadHigh(e: Error)
    requires VariantIndex(e) >= 7
    ensures Prefix(e)[0] == Head(e).0 && Prefix(e)[1] == Head(e).1
  {
    match e
    case Auth(_) =>
    case Validation(_) =>
    case Network(_) =>
    case Serialization(_) =>
    case Io(_) =>
    case Internal(_) =>
    case Unknown(_) =>
  }

  /** The first two letters of the prefix already identify the variant. */
  lemma PrefixHeadIdentifiesVariant(a: Error, b: Error)
    requires Prefix(a)[..2] == Prefix(b)[..2]
    ensures VariantIndex(a) == VariantIndex(b) && Prefix(a) == Prefix(b)
  {
    PrefixHead(a);
    PrefixHead(b);
    assert Prefix(a)[0] == Prefix(a)[..2][0] && Prefix(a)[1] == Prefix(a)[..2][1];
    assert Prefix(b)[0] == Prefix(b)[..2][0] && Prefix(b)[1] == Prefix(b)[..2][1];
    assert Head(a) == Head(b);
  }

  lemma SameVariantSameMsg(a: Error, b: Error)
    requires VariantIndex(a) == VariantIndex(b) && a.msg == b.msg
    ensures a == b
  {
  }

  /** Displayed errors can be told apart: the text determines variant and payload. */
  lemma DisplayInjective(a: Error, b: Error)
    requires Display(a) == Display(b)
    ensures a == b
  {
    var s := Display(a);
    assert Prefix(a)[..2] == s[..2] == Prefix(b)[..2];
    PrefixHeadIdentifiesVariant(a, b);
    assert a.msg == s[|Prefix(a)|..] == b.msg;
    SameVariantSameMsg(a, b);
  }
}
