/** Lists of output lines, shared by the two blog-content renderers. */
module Lines {
  /** How many times `x` occurs in `lines`. */
  function Count(lines: seq<string>, x: string): (n: nat)
    ensures n <= |lines|
    ensures n == 0 <==> x !in lines
  {
    if lines == [] then 0 else (if lines[0] == x then 1 else 0) + Count(lines[1..], x)
  }

  lemma {:induction false} CountAppend(a: seq<string>, b: seq<string>, x: string)
    ensures Count(a + b, x) == Count(a, x) + Count(b, x)
  {
    if a == [] {
      assert a + b == b;
    } else {
      assert (a + b)[1..] == a[1..] + b;
      CountAppend(a[1..], b, x);
    }
  }

  /** A line that starts with `prefix` is not `b` when the two differ at index `i`. */
  lemma PrefixDiffers(prefix: string, rest: string, b: string, i: nat)
    requires i < |prefix| && i < |b| && prefix[i] != b[i]
    ensures prefix + rest != b
  {
    assert (prefix + rest)[i] == prefix[i];
  }
}
