/** Deterministic ids: the command id of one settle attempt and the reference of one auto-withdraw. */
module CommandId {
  const PREFIX := "proxy-v1-xfer-"

  function Digit(d: nat): char
    requires d < 10
  {
    ['0', '1', '2', '3', '4', '5', '6', '7', '8', '9'][d]
  }

  function Decimal(n: nat): string {
    if n < 10 then [Digit(n)] else Decimal(n / 10) + [Digit(n % 10)]
  }

  /** `proxy-v1-xfer-<agreement>-<cycle>`, with `-r<attempt>` for a retry. */
  function Encode(agreementId: string, cycle: nat, attempt: nat): string {
    PREFIX + Body(agreementId, cycle, attempt)
  }

  function Body(agreementId: string, cycle: nat, attempt: nat): string {
    agreementId + "-" + Decimal(cycle) + if attempt == 0 then "" else "-r" + Decimal(attempt)
  }

  // ----- reading an id back, from the right -----

  function DigitValue(c: char): nat {
    if '0' <= c <= '9' then (c - '0') as nat else 0
  }

  function Parse(s: string): nat {
    if |s| == 0 then 0 else 10 * Parse(s[..|s| - 1]) + DigitValue(s[|s| - 1])
  }

  /** The index of the last dash, or -1. */
  function LastDash(s: string): int
    ensures -1 <= LastDash(s) < |s|
  {
    if |s| == 0 then -1
    else if s[|s| - 1] == '-' then |s| - 1
    else LastDash(s[..|s| - 1])
  }

  function Before(s: string): string {
    if LastDash(s) < 0 then s else s[..LastDash(s)]
  }

  function AfterDash(s: string): string {
    s[LastDash(s) + 1..]
  }

  function Decode(id: string): (string, nat, nat) {
    DecodeBody(if PREFIX <= id then id[|PREFIX|..] else id)
  }

  function DecodeBody(body: string): (string, nat, nat) {
    var last := AfterDash(body);
    if |last| > 0 && last[0] == 'r' then
      (Before(Before(body)), Parse(AfterDash(Before(body))), Parse(last[1..]))
    else
      (Before(body), Parse(last), 0)
  }

  lemma {:induction false} DecimalReads(n: nat)
    ensures |Decimal(n)| > 0
    ensures forall c :: c in Decimal(n) ==> '0' <= c <= '9'
    ensures Parse(Decimal(n)) == n
  {
    if n < 10 {
      assert [Digit(n)][..0] == "";
    } else {
      DecimalReads(n / 10);
      var s := Decimal(n);
      assert s[..|s| - 1] == Decimal(n / 10);
    }
  }

  lemma {:induction false} LastDashBetween(left: string, right: string)
    requires '-' !in right
    ensures LastDash(left + "-" + right) == |left|
  {
    var s := left + "-" + right;
    if |right| > 0 {
      assert s[|s| - 1] == right[|right| - 1];
      assert s[..|s| - 1] == left + "-" + right[..|right| - 1];
      LastDashBetween(left, right[..|right| - 1]);
    }
  }

  lemma Split(left: string, right: string)
    requires '-' !in right
    ensures Before(left + "-" + right) == left && AfterDash(left + "-" + right) == right
  {
    LastDashBetween(left, right);
  }

  lemma DecodeBodyReads(agreementId: string, cycle: nat, attempt: nat)
    ensures DecodeBody(Body(agreementId, cycle, attempt)) == (agreementId, cycle, attempt)
  {
    var plain := agreementId + "-" + Decimal(cycle);
    DecimalReads(cycle);
    DecimalReads(attempt);
    Split(agreementId, Decimal(cycle));
    if attempt == 0 {
      assert Body(agreementId, cycle, attempt) == plain;
      assert Decimal(cycle)[0] in Decimal(cycle);
    } else {
      var retry := "r" + Decimal(attempt);
      assert Body(agreementId, cycle, attempt) == plain + "-" + retry;
      assert retry[1..] == Decimal(attempt);
      Split(plain, retry);
    }
  }

  lemma DropPrefix(prefix: string, s: string)
    ensures prefix <= prefix + s && (prefix + s)[|prefix|..] == s
  {
  }

  /** Whatever dashes the agreement id holds, the id reads back to exactly what it was built from. */
  lemma DecodeEncode(agreementId: string, cycle: nat, attempt: nat)
    ensures Decode(Encode(agreementId, cycle, attempt)) == (agreementId, cycle, attempt)
  {
    DropPrefix(PREFIX, Body(agreementId, cycle, attempt));
    DecodeBodyReads(agreementId, cycle, attempt);
  }

  /** Two attempts share a command id exactly when they are the same attempt. */
  lemma EncodeInjective(a: string, c: nat, r: nat, a': string, c': nat, r': nat)
    ensures Encode(a, c, r) == Encode(a', c', r') <==> a == a' && c == c' && r == r'
  {
    DecodeEncode(a, c, r);
    DecodeEncode(a', c', r');
  }

  lemma DecimalExamples()
    ensures Decimal(12) == "12" && Decimal(3) == "3" && Decimal(1700) == "1700"
  {
    assert Decimal(1) == "1";
    assert Decimal(17) == "17" && Decimal(170) == "170";
  }

  /** The ids as the ledger sees them: a first attempt has no suffix, a retry has one. */
  lemma EncodeExamples(agreementId: string)
    ensures Encode(agreementId, 12, 0) == "proxy-v1-xfer-" + agreementId + "-12"
    ensures Encode(agreementId, 12, 3) == "proxy-v1-xfer-" + agreementId + "-12-r3"
    ensures Reference(agreementId, 1700) == "withdraw-" + agreementId + "-1700"
  {
    DecimalExamples();
    hide Decimal;
    assert Body(agreementId, 12, 3) == agreementId + "-12" + "-r3";
    assert "-12" == "-" + "12" && "-r3" == "-r" + "3" && "-1700" == "-" + "1700";
  }

  /** `withdraw-<stream>-<milliseconds>`: the settlement reference of an auto-withdraw. */
  function Reference(streamId: string, time: nat): string {
    "withdraw-" + (streamId + "-" + Decimal(time))
  }

  /** Two settlements share a reference exactly when they are of one stream and one instant. */
  lemma ReferenceInjective(s: string, t: nat, s': string, t': nat)
    ensures Reference(s, t) == Reference(s', t') <==> s == s' && t == t'
  {
    DropPrefix("withdraw-", s + "-" + Decimal(t));
    DropPrefix("withdraw-", s' + "-" + Decimal(t'));
    DecimalReads(t);
    DecimalReads(t');
    Split(s, Decimal(t));
    Split(s', Decimal(t'));
  }
}
