/** Session IDs are uint64 numbers written in decimal. The control plane uses the
    text, the data plane the number. */
module SessionId {
  import opened Words
  import opened Ownership
  import opened Store

  predicate IsDigit(c: char) {
    '0' <= c <= '9'
  }

  function DigitValue(c: char): (d: nat)
    requires IsDigit(c)
    ensures d < 10
  {
    (c - '0') as int
  }

  function DigitChar(d: nat): (c: char)
    requires d < 10
    ensures IsDigit(c) && DigitValue(c) == d
  {
    '0' + d as char
  }

  predicate AllDigits(s: string) {
    forall i :: 0 <= i < |s| ==> IsDigit(s[i])
  }

  /** The number a digit string denotes. */
  function Value(s: string): nat
    requires AllDigits(s)
  {
    if s == "" then 0 else 10 * Value(s[..|s| - 1]) + DigitValue(s[|s| - 1])
  }

  /** `strconv.ParseUint(s, 10, 64)`: digits only, at least one, below 2^64. */
  function ParseUint(s: string): Option<nat> {
    if s == "" || !AllDigits(s) || Value(s) >= UINT64 then None else Some(Value(s))
  }

  /** `strconv.FormatUint(v, 10)`. */
  function FormatUint(v: nat): string {
    if v < 10 then [DigitChar(v)] else FormatUint(v / 10) + [DigitChar(v % 10)]
  }

  /** No leading zero: what FormatUint writes. */
  predicate Canonical(s: string) {
    s != "" && AllDigits(s) && (|s| > 1 ==> s[0] != '0')
  }

  lemma {:induction false} FormatDenotes(v: nat)
    ensures var s := FormatUint(v); Canonical(s) && Value(s) == v && (v > 0 ==> s[0] != '0')
  {
    if v >= 10 {
      FormatDenotes(v / 10);
      var s := FormatUint(v);
      assert s[..|s| - 1] == FormatUint(v / 10);
    } else {
      assert FormatUint(v)[..0] == "";
    }
  }

  lemma {:induction false} CanonicalPositive(s: string)
    requires AllDigits(s) && s != "" && s[0] != '0'
    ensures Value(s) > 0
  {
    if |s| == 1 {
      assert s[..0] == "";
    } else {
      CanonicalPositive(s[..|s| - 1]);
    }
  }

  /** Writing the number a canonical ID denotes gives the ID back. */
  lemma {:induction false} FormatOfValue(s: string)
    requires Canonical(s)
    ensures FormatUint(Value(s)) == s
  {
    var init := s[..|s| - 1];
    if |s| == 1 {
      assert init == "";
    } else {
      CanonicalPositive(init);
      FormatOfValue(init);
      assert s == init + [s[|s| - 1]];
    }
  }

  function Parse(id: Name): Option<nat> {
    ParseUint(id.text)
  }

  function Format(v: nat): Name {
    Name(FormatUint(v))
  }

  /** An ID the controller makes: the decimal form of a number. */
  predicate IsSessionId(id: Name) {
    Canonical(id.text) && Value(id.text) < UINT64
  }

  /** Text and number determine each other on the IDs the controller makes. */
  lemma RoundTrip(id: Name, v: nat)
    ensures v < UINT64 ==> IsSessionId(Format(v)) && Parse(Format(v)) == Some(v)
    ensures IsSessionId(id) ==> Parse(id) == Some(Value(id.text)) && Format(Value(id.text)) == id
  {
    FormatDenotes(v);
    if IsSessionId(id) {
      FormatOfValue(id.text);
    }
  }
}
