/** Byte order of texts, as the database compares TEXT and the language compares strings. */
module TextOrder {
  predicate TextBefore(a: string, b: string) {
    b != "" && (a == "" || a[0] < b[0] || (a[0] == b[0] && TextBefore(a[1..], b[1..])))
  }

  predicate TextNotAfter(a: string, b: string) {
    a == b || TextBefore(a, b)
  }

  lemma {:induction false} TextTotal(a: string, b: string)
    ensures a != b ==> TextBefore(a, b) || TextBefore(b, a)
    ensures !(TextBefore(a, b) && TextBefore(b, a))
    ensures a == b ==> !TextBefore(a, b)
  {
    if a != "" && b != "" {
      TextTotal(a[1..], b[1..]);
      assert a == [a[0]] + a[1..] && b == [b[0]] + b[1..];
    }
  }

  lemma {:induction false} TextTransitive(a: string, b: string, c: string)
    requires TextBefore(a, b) && TextBefore(b, c)
    ensures TextBefore(a, c)
  {
    if a != "" && a[0] == b[0] == c[0] { TextTransitive(a[1..], b[1..], c[1..]); }
  }

  lemma {:induction false} TextByParts(a: string, b: string, c: string, d: string)
    requires |a| == |b|
    ensures TextBefore(a + c, b + d) <==> TextBefore(a, b) || (a == b && TextBefore(c, d))
    decreases |a|
  {
    if a == "" {
      assert a + c == c && b + d == d;
    } else {
      TextByParts(a[1..], b[1..], c, d);
      assert (a + c)[1..] == a[1..] + c && (b + d)[1..] == b[1..] + d;
      assert a == [a[0]] + a[1..] && b == [b[0]] + b[1..];
    }
  }

  lemma DashedOrder(a: string, b: string, c: string, d: string)
    requires |a| == |b|
    ensures TextBefore(a + "-" + c, b + "-" + d) <==> TextBefore(a, b) || (a == b && TextBefore(c, d))
  {
    assert a + "-" + c == a + ("-" + c) && b + "-" + d == b + ("-" + d);
    TextByParts(a, b, "-" + c, "-" + d);
    TextByParts("-", "-", c, d);
  }

  /** The first difference decides, whatever follows. */
  lemma FirstDiffers(prefix: string, a: string, b: string, c: string, d: string)
    requires a != "" && b != "" && a[0] < b[0]
    ensures TextBefore(prefix + a + c, prefix + b + d)
  {
    assert prefix + a + c == prefix + (a + c) && prefix + b + d == prefix + (b + d);
    TextByParts(prefix, prefix, a + c, b + d);
  }
}
