/**
 * Naming the usages of a key: a greedy decomposition over a descending table
 * of powers of two, then a reversal in place.
 */
module KeyUsage {
  function Pow2(n: nat): (p: nat)
    ensures p >= 1
  {
    if n == 0 then 1 else 2 * Pow2(n - 1)
  }

  /** The table [2^(n-1), ..., 2, 1]. */
  function Table(n: nat): seq<nat> {
    if n == 0 then [] else [Pow2(n - 1)] + Table(n - 1)
  }

  /** The greedy decomposition of the usage over the first n powers of two. */
  function Greedy(usage: int, n: nat): seq<nat> {
    if n == 0 then []
    else if usage >= Pow2(n - 1) then [Pow2(n - 1)] + Greedy(usage - Pow2(n - 1), n - 1)
    else Greedy(usage, n - 1)
  }

  /** Once nothing is left, nothing more is emitted. */
  lemma {:induction false} GreedyOfZero(n: nat)
    ensures Greedy(0, n) == []
  {
    if n > 0 {
      GreedyOfZero(n - 1);
    }
  }

  function Reversed<T>(s: seq<T>): seq<T> {
    seq(|s|, i requires 0 <= i < |s| => s[|s| - 1 - i])
  }

  function Sum(s: seq<nat>): nat {
    if s == [] then 0 else s[0] + Sum(s[1..])
  }

  /** Bit k of u. */
  predicate Bit(u: nat, k: nat) {
    if k == 0 then u % 2 == 1 else Bit(u / 2, k - 1)
  }

  ghost predicate Increasing(s: seq<nat>) {
    forall i, j :: 0 <= i < j < |s| ==> s[i] < s[j]
  }

  /** Strictly descending, from below the bound. */
  ghost predicate DescendsFrom(s: seq<nat>, bound: nat) {
    && (forall i :: 0 <= i < |s| ==> s[i] < bound)
    && (forall i, j :: 0 <= i < j < |s| ==> s[i] > s[j])
  }

  lemma DescendsCons(val: nat, rest: seq<nat>, bound: nat)
    requires DescendsFrom(rest, val) && val < bound
    ensures DescendsFrom([val] + rest, bound)
  {
  }

  lemma {:induction false} GreedyDescends(usage: int, n: nat)
    ensures DescendsFrom(Greedy(usage, n), Pow2(n))
  {
    if n > 0 {
      var val := Pow2(n - 1);
      if usage >= val {
        GreedyDescends(usage - val, n - 1);
        DescendsCons(val, Greedy(usage - val, n - 1), Pow2(n));
      } else {
        GreedyDescends(usage, n - 1);
      }
    }
  }

  /** After the reversal the values are strictly increasing. */
  lemma ReversedIncreases(usage: int, n: nat)
    ensures Increasing(Reversed(Greedy(usage, n)))
  {
    GreedyDescends(usage, n);
  }

  /** The values sum up to the usage, cut off below 0 and above 2^n - 1. */
  lemma {:induction false} GreedySum(usage: int, n: nat)
    ensures Sum(Greedy(usage, n)) == Clamp(usage, n)
  {
    if n > 0 {
      var val := Pow2(n - 1);
      if usage >= val {
        GreedySum(usage - val, n - 1);
        assert Greedy(usage, n)[1..] == Greedy(usage - val, n - 1);
      } else {
        GreedySum(usage, n - 1);
      }
    }
  }

  lemma {:induction false} TopBit(u: nat, n: nat)
    requires u < Pow2(n + 1)
    ensures Bit(u, n) <==> u >= Pow2(n)
  {
    if n > 0 {
      TopBit(u / 2, n - 1);
    }
  }

  lemma {:induction false} LowerBitsUnchanged(u: nat, m: nat, k: nat)
    requires k < m && u >= Pow2(m)
    ensures Bit(u - Pow2(m), k) <==> Bit(u, k)
  {
    assert (u - Pow2(m)) / 2 == u / 2 - Pow2(m - 1);
    if k > 0 {
      LowerBitsUnchanged(u / 2, m - 1, k - 1);
    }
  }

  lemma {:induction false} ZeroHasNoBits(k: nat)
    ensures !Bit(0, k)
  {
    if k > 0 {
      ZeroHasNoBits(k - 1);
    }
  }

  lemma {:induction false} Pow2Monotone(a: nat, b: nat)
    requires a < b
    ensures Pow2(a) < Pow2(b)
  {
    if a + 1 < b {
      Pow2Monotone(a, b - 1);
    }
  }

  /** Below 2^n the emitted values are exactly the bits that are set. */
  lemma {:induction false} GreedyEmitsBits(u: nat, n: nat, k: nat)
    requires u < Pow2(n) && k < n
    ensures Pow2(k) in Greedy(u, n) <==> Bit(u, k)
  {
    var val := Pow2(n - 1);
    TopBit(u, n - 1);
    if k == n - 1 {
      if u < val {
        GreedyDescends(u, n - 1);
      }
    } else {
      Pow2Monotone(k, n - 1);
      if u >= val {
        LowerBitsUnchanged(u, n - 1, k);
        GreedyEmitsBits(u - val, n - 1, k);
      } else {
        GreedyEmitsBits(u, n - 1, k);
      }
    }
  }

  /** Value v is the power of two of some set bit of u below bit n. */
  ghost predicate SetBit(u: nat, n: nat, v: nat) {
    exists k: nat :: k < n && v == Pow2(k) && Bit(u, k)
  }

  /** Nothing but powers of two from the table is emitted. */
  lemma {:induction false} GreedyFromTable(usage: int, n: nat, v: nat) returns (k: nat)
    requires v in Greedy(usage, n)
    ensures k < n && v == Pow2(k)
  {
    var val := Pow2(n - 1);
    if v == val {
      k := n - 1;
    } else {
      k := GreedyFromTable(if usage >= val then usage - val else usage, n - 1, v);
    }
  }

  /** The usage cut off below 0 and above 2^n - 1. */
  function Clamp(usage: int, n: nat): nat {
    if usage < 0 then 0 else if usage < Pow2(n) then usage else Pow2(n) - 1
  }

  lemma {:induction false} GreedyOfClamped(usage: int, n: nat)
    ensures Greedy(usage, n) == Greedy(Clamp(usage, n), n)
  {
    if n > 0 {
      var val := Pow2(n - 1);
      if usage < 0 {
        GreedyOfClamped(usage, n - 1);
      } else if usage >= 2 * val {
        GreedyOfClamped(usage - val, n - 1);
      }
    }
  }

  /**
   * For every integer, the values in the order they are named are strictly increasing, and they are
   * exactly the bits that are set in the clamped usage.
   */
  lemma NamedAreSetBits(usage: int, n: nat)
    ensures var values := Reversed(Greedy(usage, n));
            && Increasing(values)
            && forall v :: v in values <==> SetBit(Clamp(usage, n), n, v)
  {
    var u := Clamp(usage, n);
    ReversedIncreases(usage, n);
    GreedyOfClamped(usage, n);
    forall v ensures v in Reversed(Greedy(usage, n)) <==> SetBit(u, n, v) {
      ReversedMembers(Greedy(usage, n), v);
      if v in Greedy(u, n) {
        var k := GreedyFromTable(u, n, v);
        GreedyEmitsBits(u, n, k);
      }
      if SetBit(u, n, v) {
        var k: nat :| k < n && v == Pow2(k) && Bit(u, k);
        GreedyEmitsBits(u, n, k);
      }
    }
  }

  lemma ReversedMembers<T>(s: seq<T>, v: T)
    ensures v in Reversed(s) <==> v in s
  {
    var r := Reversed(s);
    if v in s {
      var i :| 0 <= i < |s| && s[i] == v;
      assert r[|s| - 1 - i] == v;
    }
  }

  /* ---------- The program ---------- */

  const POSSIBLE_VALUES: seq<nat> := [256, 128, 64, 32, 16, 8, 4, 2, 1]

  /** The bits of section 4.2.1.3 of RFC 5280, from the first on. */
  function Name(value: nat): string {
    match value
    case 1 => "Digital Signature"
    case 2 => "Content Commitment"
    case 4 => "Key Encipherment"
    case 8 => "Data Encipherment"
    case 16 => "Key Agreement"
    case 32 => "Cert Sign"
    case 64 => "CRL Sign"
    case 128 => "Encipher Only"
    case 256 => "Decipher Only"
    case _ => ""
  }

  function Names(values: seq<nat>): seq<string> {
    seq(|values|, i requires 0 <= i < |values| => Name(values[i]))
  }

  function Join(parts: seq<string>, separator: string): string {
    if parts == [] then ""
    else if |parts| == 1 then parts[0]
    else parts[0] + separator + Join(parts[1..], separator)
  }

  /** The names of the bits 0 to 8, in the order of the standard. */
  const NAMES: seq<string> := [
    "Digital Signature", "Content Commitment", "Key Encipherment", "Data Encipherment", "Key Agreement",
    "Cert Sign", "CRL Sign", "Encipher Only", "Decipher Only"]

  lemma NameOfBit(k: nat)
    requires k < 9
    ensures Name(Pow2(k)) == NAMES[k]
  {
    assert Pow2(0) == 1 && Pow2(1) == 2 && Pow2(2) == 4 && Pow2(3) == 8 && Pow2(4) == 16;
    assert Pow2(5) == 32 && Pow2(6) == 64 && Pow2(7) == 128 && Pow2(8) == 256;
  }

  /** Joining keeps every part, in order, and puts one separator between neighbours. */
  lemma {:induction false} JoinConcat(a: seq<string>, b: seq<string>, separator: string)
    requires a != [] && b != []
    ensures Join(a + b, separator) == Join(a, separator) + separator + Join(b, separator)
    ensures forall part :: Join([part], separator) == part
    decreases |a|
  {
    if |a| == 1 {
      assert (a + b)[1..] == b;
    } else {
      assert (a + b)[1..] == a[1..] + b;
      JoinConcat(a[1..], b, separator);
      assert Join(a + b, separator) == a[0] + separator + (Join(a[1..], separator) + separator + Join(b, separator));
    }
  }

  /** What is printed for the table bits of u from bit k on. */
  function Printed(u: nat, k: nat): seq<string>
    requires k <= 9
    decreases 9 - k
  {
    if k == 9 then [] else (if Bit(u, k) then [NAMES[k]] else []) + Printed(u, k + 1)
  }

  /** The values of the set bits of u from bit k on, below bit n. */
  function SetValues(u: nat, k: nat, n: nat): seq<nat>
    requires k <= n
    decreases n - k
  {
    if k == n then [] else (if Bit(u, k) then [Pow2(k)] else []) + SetValues(u, k + 1, n)
  }

  lemma {:induction false} SetValuesSnoc(u: nat, k: nat, n: nat)
    requires k <= n
    ensures SetValues(u, k, n + 1) == SetValues(u, k, n) + (if Bit(u, n) then [Pow2(n)] else [])
    decreases n - k
  {
    var last := if Bit(u, n) then [Pow2(n)] else [];
    if k < n {
      SetValuesSnoc(u, k + 1, n);
      var first := if Bit(u, k) then [Pow2(k)] else [];
      var mid := SetValues(u, k + 1, n);
      assert SetValues(u, k, n + 1) == first + (mid + last);
      assert first + (mid + last) == (first + mid) + last;
    } else {
      assert SetValues(u, n + 1, n + 1) == [] && SetValues(u, n, n) == [];
      assert SetValues(u, n, n + 1) == last + [];
    }
  }

  lemma {:induction false} SetValuesLower(u: nat, m: nat, k: nat)
    requires k <= m && u >= Pow2(m)
    ensures SetValues(u - Pow2(m), k, m) == SetValues(u, k, m)
    decreases m - k
  {
    if k < m {
      LowerBitsUnchanged(u, m, k);
      SetValuesLower(u, m, k + 1);
    }
  }

  /** Below 2^n the reversed decomposition lists the set bits, the lowest first. */
  lemma {:induction false} ReversedListsBits(u: nat, n: nat)
    requires u < Pow2(n)
    ensures Reversed(Greedy(u, n)) == SetValues(u, 0, n)
  {
    if n > 0 {
      var val := Pow2(n - 1);
      TopBit(u, n - 1);
      SetValuesSnoc(u, 0, n - 1);
      if u >= val {
        ReversedListsBits(u - val, n - 1);
        SetValuesLower(u, n - 1, 0);
        var rest := Greedy(u - val, n - 1);
        assert Reversed([val] + rest) == Reversed(rest) + [val];
      } else {
        ReversedListsBits(u, n - 1);
      }
    }
  }

  lemma NamesCons(value: nat, rest: seq<nat>)
    ensures Names([value] + rest) == [Name(value)] + Names(rest)
  {
  }

  lemma {:induction false} PrintedNames(u: nat, k: nat)
    requires k <= 9
    ensures Names(SetValues(u, k, 9)) == Printed(u, k)
    decreases 9 - k
  {
    if k < 9 {
      NameOfBit(k);
      PrintedNames(u, k + 1);
      var rest := SetValues(u, k + 1, 9);
      NamesCons(Pow2(k), rest);
      if Bit(u, k) {
        assert SetValues(u, k, 9) == [Pow2(k)] + rest;
      } else {
        assert SetValues(u, k, 9) == rest;
      }
    }
  }

  /** What the program prints is, bit by bit, the name of every set bit of the clamped usage. */
  lemma PrintsSetBits(usage: int)
    ensures Names(Reversed(Greedy(usage, 9))) == Printed(Clamp(usage, 9), 0)
  {
    GreedyOfClamped(usage, 9);
    ReversedListsBits(Clamp(usage, 9), 9);
    PrintedNames(Clamp(usage, 9), 0);
  }

  lemma TableOfNine()
    ensures Table(9) == POSSIBLE_VALUES
  {
    assert Pow2(0) == 1 && Pow2(1) == 2 && Pow2(2) == 4 && Pow2(3) == 8 && Pow2(4) == 16;
    assert Pow2(5) == 32 && Pow2(6) == 64 && Pow2(7) == 128 && Pow2(8) == 256;
    assert Table(2) == [2, 1];
    assert Table(4) == [8, 4] + Table(2);
    assert Table(6) == [32, 16] + Table(4);
    assert Table(8) == [128, 64] + Table(6);
  }

  /** The loop over a table: what it has emitted in the end, if it has emitted `values` so far. */
  function Loop(usage: int, table: seq<nat>, values: seq<nat>): seq<nat> {
    if table == [] then values
    else
      var left := if usage >= table[0] then usage - table[0] else usage;
      var more := if usage >= table[0] then values + [table[0]] else values;
      if left == 0 then more else Loop(left, table[1..], more)
  }

  lemma LoopStep(usage: int, table: seq<nat>, values: seq<nat>)
    requires table != []
    ensures var left := if usage >= table[0] then usage - table[0] else usage;
            var more := if usage >= table[0] then values + [table[0]] else values;
            Loop(usage, table, values) == if left == 0 then more else Loop(left, table[1..], more)
  {
  }

  /**
   * On a table of powers of two, of any length, the loop is the greedy
   * decomposition: leaving it early loses nothing.
   */
  lemma {:induction false} LoopIsGreedy(usage: int, n: nat, values: seq<nat>)
    ensures Loop(usage, Table(n), values) == values + Greedy(usage, n)
  {
    if n > 0 {
      var val, table := Pow2(n - 1), Table(n - 1);
      assert Table(n)[0] == val && Table(n)[1..] == table;
      LoopStep(usage, Table(n), values);
      GreedyOfZero(n - 1);
      if usage >= val {
        LoopIsGreedy(usage - val, n - 1, values + [val]);
        assert values + ([val] + Greedy(usage - val, n - 1)) == (values + [val]) + Greedy(usage - val, n - 1);
      } else if usage != 0 {
        LoopIsGreedy(usage, n - 1, values);
      }
    }
  }

  method Decompose(usage: int, table: seq<nat>) returns (values: seq<nat>)
    ensures values == Loop(usage, table, [])
  {
    var usageInt := usage;
    values := [];
    var i := 0;
    while i < |table|
      invariant i <= |table|
      invariant Loop(usage, table, []) == Loop(usageInt, table[i..], values)
    {
      var val := table[i];
      assert table[i..][1..] == table[i + 1..];
      i := i + 1;
      if usageInt >= val {
        usageInt := usageInt - val;
        values := values + [val];
      }
      if usageInt == 0 {
        return;
      }
    }
  }

  method ReverseInPlace(a: array<string>)
    modifies a
    ensures a[..] == Reversed(old(a[..]))
  {
    var i := 0;
    while i < a.Length / 2
      invariant i <= a.Length / 2
      invariant forall k :: 0 <= k < a.Length ==>
                  a[k] == if k < i || a.Length - i <= k then old(a[a.Length - 1 - k]) else old(a[k])
    {
      var opp := a.Length - 1 - i;
      a[i], a[opp] := a[opp], a[i];
      i := i + 1;
    }
  }

  /** The names of exactly the usages whose bits are set, least significant bit first. */
  method KeyUsageToString(usage: int) returns (r: string)
    ensures r == Join(Names(Reversed(Greedy(usage, 9))), ", ")
    ensures r == Join(Printed(Clamp(usage, 9), 0), ", ")
    ensures exists values: seq<nat> :: r == Join(Names(values), ", ") && Increasing(values)
              && forall v :: v in values <==> SetBit(Clamp(usage, 9), 9, v)
  {
    NamedAreSetBits(usage, 9);
    PrintsSetBits(usage);
    TableOfNine();
    LoopIsGreedy(usage, 9, []);
    assert [] + Greedy(usage, 9) == Greedy(usage, 9);
    var values := Decompose(usage, POSSIBLE_VALUES);
    assert values == Greedy(usage, 9);
    var names := Names(values);
    var usageStrings := new string[|names|](i requires 0 <= i < |names| => names[i]);
    assert usageStrings[..] == names;
    ReverseInPlace(usageStrings);
    NamesReversed(values);
    r := Join(usageStrings[..], ", ");
  }

  lemma NamesReversed(values: seq<nat>)
    ensures Reversed(Names(values)) == Names(Reversed(values))
  {
  }
}
