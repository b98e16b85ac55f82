/** String helpers standing for the JavaScript built-ins the site relies on:
    template-literal concatenation, `Array.prototype.join`, `String.prototype.toUpperCase`
    on ASCII text, and number-to-string conversion. */
module Text {

  lemma AppendAssoc<T>(a: seq<T>, b: seq<T>, c: seq<T>)
    ensures (a + b) + c == a + (b + c)
  {
  }

  /** All parts glued together in order, as repeated `+=` does. */
  function Concat(parts: seq<string>): string
  {
    if parts == [] then [] else parts[0] + Concat(parts[1..])
  }

  lemma {:induction false} ConcatAppend(a: seq<string>, b: seq<string>)
    ensures Concat(a + b) == Concat(a) + Concat(b)
  {
    if a == [] {
      assert a + b == b;
    } else {
      assert (a + b)[1..] == a[1..] + b;
      ConcatAppend(a[1..], b);
    }
  }

  /** `parts.join(sep)`: the parts with one separator between neighbours. */
  function Join(parts: seq<string>, sep: string): string
  {
    if parts == [] then []
    else if |parts| == 1 then parts[0]
    else parts[0] + sep + Join(parts[1..], sep)
  }

  /** Joining is concatenating each part after the first with the separator in front. */
  lemma {:induction false} JoinIsConcatWithSeparators(parts: seq<string>, sep: string)
    requires parts != []
    ensures Join(parts, sep) == parts[0] + Concat(seq(|parts| - 1, i requires 0 <= i < |parts| - 1 => sep + parts[i + 1]))
  {
    var tail := seq(|parts| - 1, i requires 0 <= i < |parts| - 1 => sep + parts[i + 1]);
    if |parts| == 1 {
      assert tail == [];
    } else {
      JoinIsConcatWithSeparators(parts[1..], sep);
      var tail' := seq(|parts| - 2, i requires 0 <= i < |parts| - 2 => sep + parts[1..][i + 1]);
      assert tail == [sep + parts[1]] + tail';
    }
  }

  /** Pushing one more part before joining adds the separator and that part at the end. */
  lemma {:induction false} JoinSnoc(parts: seq<string>, p: string, sep: string)
    requires parts != []
    ensures Join(parts + [p], sep) == Join(parts, sep) + sep + p
  {
    if |parts| == 1 {
      assert (parts + [p])[1..] == [p];
    } else {
      assert (parts + [p])[1..] == parts[1..] + [p];
      JoinSnoc(parts[1..], p, sep);
      calc {
        Join(parts + [p], sep);
        parts[0] + sep + Join(parts[1..] + [p], sep);
        parts[0] + sep + (Join(parts[1..], sep) + sep + p);
        (parts[0] + sep + Join(parts[1..], sep)) + sep + p;
        Join(parts, sep) + sep + p;
      }
    }
  }

  /** `xs.map(f)`. */
  function MapSeq<A, B>(f: A -> B, xs: seq<A>): (r: seq<B>)
    ensures |r| == |xs|
  {
    if xs == [] then [] else MapSeq(f, xs[..|xs| - 1]) + [f(xs[|xs| - 1])]
  }

  lemma {:induction false} MapSeqAt<A, B>(f: A -> B, xs: seq<A>)
    ensures forall i :: 0 <= i < |xs| ==> MapSeq(f, xs)[i] == f(xs[i])
  {
    if xs != [] {
      var init := xs[..|xs| - 1];
      MapSeqAt(f, init);
      var r := MapSeq(f, xs);
      forall i | 0 <= i < |xs|
        ensures r[i] == f(xs[i])
      {
        if i < |init| {
          assert r[i] == MapSeq(f, init)[i] && init[i] == xs[i];
        }
      }
    }
  }

  lemma MapSeqSnoc<A, B>(f: A -> B, xs: seq<A>, x: A)
    ensures MapSeq(f, xs + [x]) == MapSeq(f, xs) + [f(x)]
  {
    assert (xs + [x])[..|xs|] == xs;
  }

  lemma {:induction false} MapSeqAppend<A, B>(f: A -> B, xs: seq<A>, ys: seq<A>)
    ensures MapSeq(f, xs + ys) == MapSeq(f, xs) + MapSeq(f, ys)
    decreases |ys|
  {
    if ys == [] {
      assert xs + ys == xs;
    } else {
      var init := ys[..|ys| - 1];
      var y := ys[|ys| - 1];
      assert xs + ys == (xs + init) + [y];
      assert ys == init + [y];
      MapSeqSnoc(f, xs + init, y);
      MapSeqSnoc(f, init, y);
      MapSeqAppend(f, xs, init);
    }
  }

  predicate IsLowerAscii(c: char) { 'a' <= c <= 'z' }

  /** `toUpperCase` restricted to ASCII: lower-case letters become upper-case, every other
      character stays. */
  function ToUpperAscii(s: string): (r: string)
    ensures |r| == |s|
    ensures forall i :: 0 <= i < |s| ==> !IsLowerAscii(r[i])
    ensures forall i :: 0 <= i < |s| && !IsLowerAscii(s[i]) ==> r[i] == s[i]
    ensures forall i :: 0 <= i < |s| && IsLowerAscii(s[i]) ==> r[i] as int == s[i] as int - 32
  {
    if s == [] then []
    else [if IsLowerAscii(s[0]) then (s[0] as int - 32) as char else s[0]] + ToUpperAscii(s[1..])
  }

  /** A lower-case ASCII string upper-cases to the string with each letter 32 code points lower. */
  lemma UpperOfLower(s: string, u: string)
    requires |u| == |s|
    requires forall i :: 0 <= i < |s| ==> IsLowerAscii(s[i]) && u[i] as int == s[i] as int - 32
    ensures ToUpperAscii(s) == u
  {
    var r := ToUpperAscii(s);
    assert forall i :: 0 <= i < |s| ==> r[i] == u[i];
  }

  /** The decimal numeral of n, as template literals print a non-negative integer. */
  function NatToString(n: nat): (r: string)
    ensures |r| > 0
    ensures forall i :: 0 <= i < |r| ==> '0' <= r[i] <= '9'
    decreases n
  {
    if n < 10 then [('0' as int + n) as char]
    else NatToString(n / 10) + [('0' as int + n % 10) as char]
  }

  /** The value a string of decimal digits denotes. */
  function DigitsValue(s: string): int
    requires forall i :: 0 <= i < |s| ==> '0' <= s[i] <= '9'
  {
    if s == [] then 0 else DigitsValue(s[..|s| - 1]) * 10 + (s[|s| - 1] as int - '0' as int)
  }

  /** Printing a number and reading it back gives the number. */
  lemma {:induction false} NatToStringValue(n: nat)
    ensures DigitsValue(NatToString(n)) == n
  {
    if n >= 10 {
      NatToStringValue(n / 10);
      var s := NatToString(n);
      assert s[..|s| - 1] == NatToString(n / 10);
    }
  }
}
