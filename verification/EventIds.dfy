/** Event ids: a counter makes them distinct, whatever the clock says. */
module EventIds {
  import opened Text

  const COUNTER_LIMIT := 0x1_0000_0000_0000_0000

  /** At least six digits, padded with zeros. */
  function Padded(n: nat): string {
    Zeros(6 - |Decimal(n)|) + Decimal(n)
  }

  function Zeros(n: int): string {
    if n <= 0 then "" else Zeros(n - 1) + "0"
  }

  function IdOf(unixSeconds: nat, n: nat): string {
    "evt_" + Decimal(unixSeconds) + "_" + Padded(n)
  }

  class IDGenerator {
    var counter: nat
    /** Every id issued, and how many calls issued them. */
    ghost var issued: set<string>
    ghost var calls: nat

    /** Until the counter wraps, the issued ids carry the numbers 1 to the counter. */
    ghost predicate Valid()
      reads this
    {
      && counter == calls % COUNTER_LIMIT
      && (calls < COUNTER_LIMIT ==> forall id :: id in issued ==> HasNumber(id, calls))
    }

    constructor ()
      ensures Valid() && issued == {} && calls == 0
    {
      counter, issued, calls := 0, {}, 0;
    }

    /** An id never issued before, as long as the 64-bit counter has not wrapped. */
    method Next(unixSeconds: nat) returns (id: string)
      requires Valid()
      modifies this
      ensures Valid() && calls == old(calls) + 1 && issued == old(issued) + {id}
      ensures calls < COUNTER_LIMIT ==> id !in old(issued)
      ensures IsEventId(id, unixSeconds, counter)
    {
      hide IdOf, Padded, IsEventId;
      counter := (counter + 1) % COUNTER_LIMIT;
      id := IdOf(unixSeconds, counter);
      IdIsEventId(unixSeconds, counter);
      calls := calls + 1;
      if calls < COUNTER_LIMIT {
        NewNumber(issued, unixSeconds, calls);
      }
      issued := issued + {id};
    }
  }

  /** The clock's seconds and the number, with at least six digits and no more zeros in front than that takes. */
  ghost predicate IsEventId(id: string, unixSeconds: nat, n: nat) {
    exists time, digits ::
      && id == "evt_" + time + "_" + digits && Digits(time) && Value(time) == unixSeconds
      && Digits(digits) && Value(digits) == n && |digits| >= 6 && (|digits| > 6 ==> digits[0] != '0')
  }

  lemma IdIsEventId(unixSeconds: nat, n: nat)
    ensures IsEventId(IdOf(unixSeconds, n), unixSeconds, n)
  {
    hide Decimal, Value, Padded;
    DecimalValue(unixSeconds);
    PaddedValue(n);
    PaddedSize(n);
  }

  lemma PaddedSize(n: nat)
    ensures |Padded(n)| >= 6 && (|Padded(n)| > 6 ==> Padded(n)[0] != '0')
  {
    hide Decimal;
    ZerosSize(6 - |Decimal(n)|);
    NoLeadingZero(n);
  }

  lemma {:induction false} ZerosSize(n: int)
    ensures |Zeros(n)| == if n <= 0 then 0 else n
  {
    if n > 0 {
      ZerosSize(n - 1);
    }
  }

  lemma {:induction false} NoLeadingZero(n: nat)
    ensures Decimal(n) != "" && (|Decimal(n)| > 1 ==> Decimal(n)[0] != '0')
  {
    if n >= 10 {
      NoLeadingZero(n / 10);
      if n < 100 {
        assert Decimal(n / 10)[0] == "0123456789"[n / 10];
      }
      if n >= 100 {
        BigEnough(n);
      }
    }
  }

  lemma BigEnough(n: nat)
    requires n >= 100
    ensures |Decimal(n / 10)| > 1
  {}

  /** The id was made with a number from 1 to n. */
  ghost predicate HasNumber(id: string, n: nat) {
    exists t: nat, k: nat :: 1 <= k <= n && id == IdOf(t, k)
  }

  lemma NewNumber(issued: set<string>, t: nat, n: nat)
    requires n >= 1 && forall id :: id in issued ==> HasNumber(id, n - 1)
    ensures IdOf(t, n) !in issued && HasNumber(IdOf(t, n), n)
    ensures forall id :: id in issued ==> HasNumber(id, n)
  {
    hide IdOf;
    forall id | id in issued ensures id != IdOf(t, n) && HasNumber(id, n) {
      var t': nat, k: nat :| 1 <= k <= n - 1 && id == IdOf(t', k);
      IdsAreDistinct(t', k, t, n);
    }
  }

  // ----- reading the counter back

  lemma {:induction false} ZerosAddNothing(n: int, s: string)
    ensures Value(Zeros(n) + s) == Value(s) && Digits(Zeros(n))
    decreases |s|, if n < 0 then 0 else n
  {
    if s == "" {
      assert Zeros(n) + s == Zeros(n);
      if n > 0 {
        ZerosAddNothing(n - 1, "");
        assert Zeros(n - 1) + "" == Zeros(n - 1);
        ValueAppend(Zeros(n - 1), '0');
      }
    } else {
      var rest, last := s[..|s| - 1], s[|s| - 1];
      ZerosAddNothing(n, rest);
      assert Zeros(n) + s == (Zeros(n) + rest) + [last];
      ValueAppend(Zeros(n) + rest, last);
    }
  }

  lemma PaddedValue(n: nat)
    ensures Value(Padded(n)) == n && Digits(Padded(n))
  {
    hide Decimal, Zeros, Value;
    DecimalValue(n);
    ZerosAddNothing(6 - |Decimal(n)|, Decimal(n));
  }

  /** Ids with different counters are different. */
  lemma IdsAreDistinct(t1: nat, n1: nat, t2: nat, n2: nat)
    requires n1 != n2
    ensures IdOf(t1, n1) != IdOf(t2, n2)
  {
    hide Padded, Decimal, Value;
    PaddedValue(n1);
    PaddedValue(n2);
    if IdOf(t1, n1) == IdOf(t2, n2) {
      SplitIsUnique("evt_" + Decimal(t1), Padded(n1), "evt_" + Decimal(t2), Padded(n2), '_');
      assert false;
    }
  }
}
