/** Small facts that several modules share: regrouping and cutting sequences, sizes. */
module Common {

  function Max(a: nat, b: nat): nat {
    if a > b then a else b
  }

  lemma SubsetSize<T>(a: set<T>, b: set<T>)
    requires a <= b
    ensures |a| <= |b|
  {
    assert b == a + (b - a);
  }

  lemma Glue<T>(a: seq<T>, b: seq<T>, c: seq<T>)
    ensures (a + b) + c == a + (b + c)
  {
  }

  lemma Glue4(a: string, b: string, c: string, d: string)
    ensures a + b + c + d == a + (b + (c + d))
  {
    Glue(a + b, c, d);
    Glue(a, b, c + d);
  }

  lemma Glue5(a: string, b: string, c: string, d: string, e: string)
    ensures a + b + c + d + e == a + (b + (c + (d + e)))
  {
    Glue4(a + b, c, d, e);
    Glue(a, b, c + (d + e));
  }

  lemma Glue6(a: string, b: string, c: string, d: string, e: string, f: string)
    ensures a + b + c + d + e + f == a + (b + (c + (d + (e + f))))
  {
    Glue5(a + b, c, d, e, f);
    Glue(a, b, c + (d + (e + f)));
  }

  lemma Glue7(a: string, b: string, c: string, d: string, e: string, f: string, g: string)
    ensures a + b + c + d + e + f + g == a + (b + (c + (d + (e + (f + g)))))
  {
    Glue6(a + b, c, d, e, f, g);
    Glue(a, b, c + (d + (e + (f + g))));
  }

  lemma Glue8(a: string, b: string, c: string, d: string, e: string, f: string, g: string, h: string)
    ensures a + b + c + d + e + f + g + h == a + (b + (c + (d + (e + (f + (g + h))))))
  {
    Glue7(a + b, c, d, e, f, g, h);
    Glue(a, b, c + (d + (e + (f + (g + h)))));
  }

  lemma Glue9(a: string, b: string, c: string, d: string, e: string, f: string, g: string, h: string, i: string)
    ensures a + b + c + d + e + f + g + h + i == a + (b + (c + (d + (e + (f + (g + (h + i)))))))
  {
    Glue8(a + b, c, d, e, f, g, h, i);
    Glue(a, b, c + (d + (e + (f + (g + (h + i))))));
  }

  /** Equal texts with one prefix have equal rests. */
  lemma Cut(p: string, x: string, y: string)
    requires p + x == p + y
    ensures x == y
  {
    assert x == (p + x)[|p|..] && y == (p + y)[|p|..];
  }
}
