/**
 * Correlation tokens of the Bridge protocol: `req_{counter}_{unixMillis}`
 * (Runtime/AudioSave.cs, GenerateRequestId). The counter is a C# `int` that is
 * pre-incremented without overflow checking; the clock part is an input.
 */
module RequestIds {
  import opened Nullable
  import opened Numerics
  import opened Decimal

  datatype RequestId = RequestId(counter: Int32, unixMillis: int)

  /** `++_requestCounter` on an unchecked `int`. */
  function NextCounter(c: Int32): (r: Int32)
    ensures c < 0x7FFF_FFFF ==> r == c + 1
    ensures c == 0x7FFF_FFFF ==> r == -0x8000_0000
  {
    Wrap32(c + 1)
  }

  /** The counter after `n` further requests. */
  function CounterAfter(c: Int32, n: nat): Int32
  {
    if n == 0 then c else NextCounter(CounterAfter(c, n - 1))
  }

  /** The rendered token sent to the host. */
  function Format(id: RequestId): (s: string)
    ensures |s| > 4 && s[..4] == "req_"
  {
    "req_" + IntToString(id.counter) + "_" + IntToString(id.unixMillis)
  }

  /** The position of the first `c` in `s`, or `|s|` when there is none. */
  function IndexOf(s: string, c: char): (k: nat)
    ensures k <= |s|
    ensures forall i :: 0 <= i < k ==> s[i] != c
    ensures k < |s| ==> s[k] == c
  {
    if s == [] then 0 else if s[0] == c then 0 else 1 + IndexOf(s[1..], c)
  }

  function Parse(s: string): Option<RequestId>
  {
    if |s| < 4 || s[..4] != "req_" then None
    else
      var rest := s[4..];
      var k := IndexOf(rest, '_');
      if k == |rest| then None
      else
        match (ParseInt(rest[..k]), ParseInt(rest[k + 1..]))
        case (Some(c), Some(ms)) =>
          if -0x8000_0000 <= c < 0x8000_0000 then Some(RequestId(c, ms)) else None
        case _ => None
  }

  lemma IndexOfAfter(a: string, c: char, b: string)
    requires c !in a
    ensures IndexOf(a + [c] + b, c) == |a|
  {
    var s := a + [c] + b;
    assert s[|a|] == c;
    assert forall i :: 0 <= i < |a| ==> s[i] == a[i];
  }

  lemma ParseFormat(id: RequestId)
    ensures Parse(Format(id)) == Some(id)
  {
    var a, b := IntToString(id.counter), IntToString(id.unixMillis);
    var s := Format(id);
    assert s[4..] == a + "_" + b;
    IndexOfAfter(a, '_', b);
    assert (a + "_" + b)[..|a|] == a;
    assert (a + "_" + b)[|a| + 1..] == b;
    ParseIntToString(id.counter);
    ParseIntToString(id.unixMillis);
  }

  /** Two tokens are equal only when both their counter and clock parts are. */
  lemma FormatInjective(x: RequestId, y: RequestId)
    requires Format(x) == Format(y)
    ensures x == y
  {
    ParseFormat(x);
    ParseFormat(y);
  }

  lemma {:induction false} CounterAfterWraps(c: Int32, n: nat)
    ensures CounterAfter(c, n) == Wrap32(c + n)
  {
    if n > 0 {
      CounterAfterWraps(c, n - 1);
      var p := c + n - 1;
      var a := p + 0x8000_0000;
      assert a == TwoTo32 * (a / TwoTo32) + a % TwoTo32;
      assert a + 1 == TwoTo32 * ((a + 1) / TwoTo32) + (a + 1) % TwoTo32;
      var w := Wrap32(p) + 1 + 0x8000_0000;
      assert w == TwoTo32 * (w / TwoTo32) + w % TwoTo32;
    }
  }

  /** Counters handed out fewer than 2^32 requests apart are distinct. */
  lemma CountersDistinct(c: Int32, i: nat, j: nat)
    requires i < j < TwoTo32
    ensures CounterAfter(c, i) != CounterAfter(c, j)
  {
    CounterAfterWraps(c, i);
    CounterAfterWraps(c, j);
    Wrap32Distinct(c + i, j - i);
  }

  /** Until the counter passes `int.MaxValue`, successive counters increase by one. */
  lemma {:induction false} CountersIncrease(c: Int32, n: nat)
    requires c + n <= 0x7FFF_FFFF
    ensures CounterAfter(c, n) == c + n
  {
    if n > 0 { CountersIncrease(c, n - 1); }
  }

  /** `a` requests and then `b` more advance the counter by `a + b`. */
  lemma {:induction false} CounterAfterAdd(c: Int32, a: nat, b: nat)
    ensures CounterAfter(CounterAfter(c, a), b) == CounterAfter(c, a + b)
  {
    if b > 0 { CounterAfterAdd(c, a, b - 1); }
  }
}
