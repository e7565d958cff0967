/**
  Length-prefixed composite keys: the mutex key `<len>:<provider>:<len>:<threadId>`
  and its parser. Every composite identifier of the binding store is built from
  `Prefixed` fields, whose injectivity is what makes the keys unforgeable.
*/
module TargetKey {
  import opened Wrappers
  import opened Numbers

  /** One field: its length, a colon, its characters. */
  function Prefixed(s: string): string { Decimal(|s|) + ":" + s }

  /** `key.indexOf(':')`: the first colon, if any. */
  function FirstColon(s: string): (at: Option<nat>)
    ensures at.Some? ==> at.value < |s| && s[at.value] == ':' && forall i :: 0 <= i < at.value ==> s[i] != ':'
    ensures at.None? ==> ':' !in s
  {
    if s == "" then None
    else if s[0] == ':' then Some(0)
    else match FirstColon(s[1..]) case None => None case Some(i) => Some(i + 1)
  }

  /** The decimal prefix ends at the first colon, whatever follows it. */
  lemma ColonAfterDecimal(n: nat, rest: string)
    ensures FirstColon(Decimal(n) + ":" + rest) == Some(|Decimal(n)|)
  {
    var s := Decimal(n) + ":" + rest;
    assert s[|Decimal(n)|] == ':';
    assert forall i :: 0 <= i < |Decimal(n)| ==> s[i] == Decimal(n)[i] && IsDigit(s[i]);
  }

  /** Whatever follows, a length-prefixed field can be read back in exactly one way. */
  lemma PrefixedInjective(a: string, x: string, b: string, y: string)
    requires Prefixed(a) + x == Prefixed(b) + y
    ensures a == b && x == y
  {
    var s := Prefixed(a) + x;
    assert s == Decimal(|a|) + ":" + (a + x) && s == Decimal(|b|) + ":" + (b + y);
    ColonAfterDecimal(|a|, a + x);
    ColonAfterDecimal(|b|, b + y);
    var d := |Decimal(|a|)|;
    assert Decimal(|a|) == s[..d] == Decimal(|b|);
    DecimalValue(|a|);
    DecimalValue(|b|);
    assert s[d + 1..] == a + x && s[d + 1..] == b + y;
    assert a == (a + x)[..|a|] && b == (b + y)[..|b|];
    assert x == (a + x)[|a|..] && y == (b + y)[|b|..];
  }

  function Make(provider: string, threadId: string): string {
    Prefixed(provider) + ":" + Prefixed(threadId)
  }

  /** Distinct (provider, thread) pairs never share a key, for all strings, legal or not. */
  lemma MakeInjective(p1: string, t1: string, p2: string, t2: string)
    requires Make(p1, t1) == Make(p2, t2)
    ensures p1 == p2 && t1 == t2
  {
    var x, y := ":" + Prefixed(t1), ":" + Prefixed(t2);
    assert Make(p1, t1) == Prefixed(p1) + x && Make(p2, t2) == Prefixed(p2) + y;
    PrefixedInjective(p1, x, p2, y);
    assert Prefixed(t1) + "" == x[1..] && Prefixed(t2) + "" == y[1..];
    PrefixedInjective(t1, "", t2, "");
  }

  predicate IsBindableProvider(p: string) { p in {"claude", "codex", "cursor"} }

  predicate IsLowerHex(c: char) { IsDigit(c) || 'a' <= c <= 'f' }

  /** The native thread id: a lower-case UUID, 8-4-4-4-12. */
  predicate IsValidThreadId(t: string) {
    |t| == 36
    && forall i :: 0 <= i < 36 ==> if i in {8, 13, 18, 23} then t[i] == '-' else IsLowerHex(t[i])
  }

  predicate Legal(provider: string, threadId: string) {
    IsBindableProvider(provider) && IsValidThreadId(threadId)
  }

  /** One length-prefixed field at the front of `s`, and what follows it. */
  function TakeField(s: string): Option<(string, string)> {
    match FirstColon(s)
    case None => None
    case Some(at) =>
      if at == 0 || !AllDigits(s[..at]) then None else
      var n := DigitsValue(s[..at]);
      var body := s[at + 1..];
      if |body| < n then None else Some((body[..n], body[n..]))
  }

  /** Two fields and nothing else, both legal. */
  function Parse(key: string): (parts: Option<(string, string)>)
    ensures parts.Some? ==> Legal(parts.value.0, parts.value.1)
  {
    match TakeField(key)
    case None => None
    case Some((provider, after)) =>
      if after == "" || after[0] != ':' then None else
      match TakeField(after[1..])
      case None => None
      case Some((threadId, rest)) =>
        if rest != "" || !Legal(provider, threadId) || Make(provider, threadId) != key then None
        else Some((provider, threadId))
  }

  lemma TakeFieldPrefixed(a: string, x: string)
    ensures TakeField(Prefixed(a) + x) == Some((a, x))
  {
    var s := Prefixed(a) + x;
    assert s == Decimal(|a|) + ":" + (a + x);
    ColonAfterDecimal(|a|, a + x);
    DecimalValue(|a|);
    var at := |Decimal(|a|)|;
    assert s[..at] == Decimal(|a|);
    assert s[at + 1..] == a + x;
    assert (a + x)[..|a|] == a && (a + x)[|a|..] == x;
  }

  /** Printing and parsing are exact inverses: a key parses iff it is the key of a legal pair, and to that pair. */
  lemma ParseExact(key: string, provider: string, threadId: string)
    ensures Parse(key) == Some((provider, threadId)) <==> Legal(provider, threadId) && key == Make(provider, threadId)
  {
    if Legal(provider, threadId) && key == Make(provider, threadId) {
      assert key == Prefixed(provider) + (":" + Prefixed(threadId));
      TakeFieldPrefixed(provider, ":" + Prefixed(threadId));
      var after := ":" + Prefixed(threadId);
      assert after[1..] == Prefixed(threadId) + "";
      TakeFieldPrefixed(threadId, "");
    }
  }
}
