/** Model of backend/src/utils/validation.ts: the two URL checks, which are
    pure predicates over the result of the URL parser, and the short-code
    generator, which builds its code in a loop. */
module Validation {
  import opened Wrappers

  /** The two fields of a parsed URL that the checks read. The parser
      normalises them: the protocol keeps its trailing ':' ("https:"),
      the hostname is lower-cased. */
  datatype ParsedUrl = ParsedUrl(protocol: string, hostname: string)

  /** The basic URL parser of the WHATWG URL Standard (`new URL(s)`), left
      abstract: `None` stands for the TypeError it throws on input that is
      not an absolute URL. */
  type UrlParser = string -> Option<ParsedUrl>

  /** The protocols a shortenable URL may have. */
  const AllowedProtocols: set<string> := {"http:", "https:"}

  /** The hostnames that may not be shortened. */
  const BlockedHostnames: set<string> := {"blocked.com", "www.blocked.com"}

  /** The 62-character alphabet of generated codes. */
  const Characters: string := "abcdefghijklmnopqrstuvwxyzABCDEFGHIJKLMNOPQRSTUVWXYZ0123456789"

  /** Number of random characters in a generated code. */
  const RandomPartLength: nat := 5

  /** isValidUrl: parse the input; a parse failure is caught and answers
      false, otherwise the protocol must be http or https. */
  function IsValidUrl(parse: UrlParser, url: string): (valid: bool)
    ensures parse(url).None? ==> !valid
    ensures parse(url).Some? ==> (valid <==> parse(url).value.protocol in AllowedProtocols)
  {
    match parse(url)
    case None => false
    case Some(u) => u.protocol == "http:" || u.protocol == "https:"
  }

  /** isBlockedDomain: parse the input; a parse failure is caught and answers
      false (the check fails open), otherwise the parsed hostname must be
      one of the two blocked names. */
  function IsBlockedDomain(parse: UrlParser, url: string): (blocked: bool)
    ensures parse(url).None? ==> !blocked
    ensures parse(url).Some? ==> (blocked <==> parse(url).value.hostname in BlockedHostnames)
  {
    match parse(url)
    case None => false
    case Some(u) => u.hostname == "blocked.com" || u.hostname == "www.blocked.com"
  }

  /** The hostname the parser gives a URL, if it parses at all. */
  function ParsedHostname(parse: UrlParser, url: string): Option<string> {
    match parse(url)
    case None => None
    case Some(u) => Some(u.hostname)
  }

  /** The verdict of isBlockedDomain depends on the parsed hostname alone, so
      two spellings the parser normalises to the same hostname (different
      letter case, say) get the same answer, and so do two that both fail
      to parse. */
  lemma BlockedDependsOnlyOnHostname(parse: UrlParser, url1: string, url2: string)
    requires ParsedHostname(parse, url1) == ParsedHostname(parse, url2)
    ensures IsBlockedDomain(parse, url1) == IsBlockedDomain(parse, url2)
  {
  }

  /** The index `Math.floor(Math.random() * characters.length)` for a random
      number `r` in [0, 1), in exact arithmetic: always a valid position in
      the alphabet. */
  function RandomIndex(r: real): (index: int)
    requires 0.0 <= r < 1.0
    ensures 0 <= index < |Characters|
  {
    (r * |Characters| as real).Floor
  }

  /** A decimal digit character. */
  predicate IsDigit(c: char) {
    '0' <= c <= '9'
  }

  /** The number a string of decimal digits denotes, read from its last
      (least significant) digit. */
  function DecimalValue(s: string): nat
    requires forall i :: 0 <= i < |s| ==> IsDigit(s[i])
  {
    if s == [] then 0
    else 10 * DecimalValue(s[..|s| - 1]) + DigitValue(s[|s| - 1])
  }

  /** The value of one decimal digit character. */
  function DigitValue(c: char): nat
    requires IsDigit(c)
  {
    c as int - '0' as int
  }

  /** The string JavaScript's `+` produces for a small non-negative integer
      such as a string length (below 1e21, where it would switch to exponent
      notation): its decimal digits, most significant first. */
  function NumberToString(n: nat): (s: string)
    ensures |s| >= 1
    ensures forall i :: 0 <= i < |s| ==> IsDigit(s[i])
    ensures DecimalValue(s) == n
    ensures n < 10 ==> |s| == 1
    decreases n
  {
    var last := ['0' + (n % 10) as char];
    if n < 10 then last else NumberToString(n / 10) + last
  }

  /** The shape of every generated code: five alphabet characters followed
      by the digit '5', the length of the random part. */
  predicate IsGeneratedShape(code: string) {
    && |code| == RandomPartLength + 1
    && (forall i :: 0 <= i < RandomPartLength ==> code[i] in Characters)
    && code[RandomPartLength] == '5'
  }

  /** generateShortCode: append five characters drawn from the alphabet, then
      append the length of what was built so far. Math.random() is an
      arbitrary number in [0, 1). */
  method GenerateShortCode() returns (finalCode: string)
    ensures |finalCode| == 6
    ensures forall i :: 0 <= i < 5 ==> finalCode[i] in Characters
    ensures finalCode[5] == '5'
    ensures IsGeneratedShape(finalCode)
  {
    var code := "";
    for i := 0 to RandomPartLength
      invariant |code| == i
      invariant forall j :: 0 <= j < i ==> code[j] in Characters
    {
      var r: real :| 0.0 <= r < 1.0;
      code := code + [Characters[RandomIndex(r)]];
    }
    finalCode := code + NumberToString(|code|);
  }
}
