/** The textual memo and control keys (internal/execir/interp.go CallKey, controlKey): the
    rendering loses nothing, so equal keys mean equal addresses. */
module Keys {
  import opened Values
  import opened ExecIR
  import opened Interp
  import opened Addressing

  function Digit(d: nat): char
    requires d < 10
  {
    "0123456789"[d]
  }

  function Decimal(n: nat): (s: string)
    ensures |s| >= 1 && forall i | 0 <= i < |s| :: '0' <= s[i] <= '9'
  {
    if n < 10 then [Digit(n)] else Decimal(n / 10) + [Digit(n % 10)]
  }

  /** Go's %v of an []int without its brackets. */
  function Spaced(xs: seq<nat>): string {
    if xs == [] then ""
    else if |xs| == 1 then Decimal(xs[0])
    else Spaced(xs[..|xs| - 1]) + " " + Decimal(xs[|xs| - 1])
  }

  function Ints(xs: seq<nat>): string {
    "[" + Spaced(xs) + "]"
  }

  function CallKey(site: Site): string {
    site.bind + "|" + Ints(site.at.path) + "|" + Ints(site.at.loop)
  }

  function TagText(t: Tag): string {
    match t case Br => "br:" case Lp => "loop:" case Wh => "while:" case Rt => "retry:"
  }

  function ControlKey(k: CtlKey): string {
    TagText(k.tag) + Ints(k.at.path) + "|" + Ints(k.at.loop)
  }

  /** A text splits uniquely at its last separator. */
  lemma LastSeparator(a: string, b: string, x: string, y: string, sep: char)
    requires sep !in b && sep !in y && a + [sep] + b == x + [sep] + y
    ensures a == x && b == y
  {
    var t := a + [sep] + b;
    assert t[|a|] == sep && t[|x|] == sep;
    assert |a| == |x|;
    assert a == t[..|a|] && x == t[..|x|];
    assert b == t[|a| + 1..] && y == t[|x| + 1..];
  }

  lemma {:induction false} DecimalInjective(m: nat, n: nat)
    requires Decimal(m) == Decimal(n)
    ensures m == n
  {
    assert forall a: nat, b: nat :: a < 10 && b < 10 && Digit(a) == Digit(b) ==> a == b;
    var s := Decimal(m);
    if m < 10 && n < 10 {
      assert s[0] == Digit(m) == Digit(n);
    } else if m >= 10 && n >= 10 {
      assert s[..|s| - 1] == Decimal(m / 10) == Decimal(n / 10);
      assert s[|s| - 1] == Digit(m % 10) == Digit(n % 10);
      DecimalInjective(m / 10, n / 10);
    }
  }

  lemma {:induction false} SpacedInjective(xs: seq<nat>, ys: seq<nat>)
    requires Spaced(xs) == Spaced(ys)
    ensures xs == ys
    decreases |xs|
  {
    if |xs| >= 2 && |ys| >= 2 {
      var n, m := |xs| - 1, |ys| - 1;
      LastSeparator(Spaced(xs[..n]), Decimal(xs[n]), Spaced(ys[..m]), Decimal(ys[m]), ' ');
      SpacedInjective(xs[..n], ys[..m]);
      DecimalInjective(xs[n], ys[m]);
      assert xs == xs[..n] + [xs[n]] && ys == ys[..m] + [ys[m]];
    } else if |xs| == 1 && |ys| == 1 {
      DecimalInjective(xs[0], ys[0]);
    } else if |xs| >= 2 {
      SpaceInside(xs);
    } else if |ys| >= 2 {
      SpaceInside(ys);
    }
  }

  lemma SpaceInside(xs: seq<nat>)
    requires |xs| >= 2
    ensures ' ' in Spaced(xs)
  {
    assert Spaced(xs)[|Spaced(xs[..|xs| - 1])|] == ' ';
  }

  lemma {:induction false} NoBar(xs: seq<nat>)
    ensures '|' !in Spaced(xs) && '|' !in Ints(xs)
    decreases |xs|
  {
    if |xs| >= 2 { NoBar(xs[..|xs| - 1]); }
  }

  lemma IntsInjective(xs: seq<nat>, ys: seq<nat>)
    requires Ints(xs) == Ints(ys)
    ensures xs == ys
  {
    assert Spaced(xs) == Ints(xs)[1..|Ints(xs)| - 1] && Spaced(ys) == Ints(ys)[1..|Ints(ys)| - 1];
    SpacedInjective(xs, ys);
  }

  /** Two call sites with one key are one site, even when a binding name contains '|'. */
  lemma CallKeyInjective(a: Site, b: Site)
    requires CallKey(a) == CallKey(b)
    ensures a == b
  {
    NoBar(a.at.path);
    NoBar(b.at.path);
    NoBar(a.at.loop);
    NoBar(b.at.loop);
    LastSeparator(a.bind + "|" + Ints(a.at.path), Ints(a.at.loop), b.bind + "|" + Ints(b.at.path), Ints(b.at.loop),
        '|');
    LastSeparator(a.bind, Ints(a.at.path), b.bind, Ints(b.at.path), '|');
    IntsInjective(a.at.path, b.at.path);
    IntsInjective(a.at.loop, b.at.loop);
  }

  lemma ControlKeyInjective(a: CtlKey, b: CtlKey)
    requires ControlKey(a) == ControlKey(b)
    ensures a == b
  {
    NoBar(a.at.path);
    NoBar(b.at.path);
    NoBar(a.at.loop);
    NoBar(b.at.loop);
    LastSeparator(TagText(a.tag) + Ints(a.at.path), Ints(a.at.loop), TagText(b.tag) + Ints(b.at.path), Ints(b.at.loop),
        '|');
    assert (TagText(a.tag) + Ints(a.at.path))[0] == TagText(a.tag)[0];
    assert (TagText(b.tag) + Ints(b.at.path))[0] == TagText(b.tag)[0];
    assert a.tag == b.tag;
    assert Ints(a.at.path) == (TagText(a.tag) + Ints(a.at.path))[|TagText(a.tag)|..];
    assert Ints(b.at.path) == (TagText(b.tag) + Ints(b.at.path))[|TagText(b.tag)|..];
    IntsInjective(a.at.path, b.at.path);
    IntsInjective(a.at.loop, b.at.loop);
  }

  /** In one run two leaf calls, or two control records, under one textual key are one. */
  lemma KeysIdentifyLeaves(w: World, prog: Program, input: Val, i: nat, j: nat)
    requires var tr := Run(w, prog, input).tr; i < |tr| && j < |tr|
    ensures var tr := Run(w, prog, input).tr;
            && (tr[i].Called? && tr[j].Called? && CallKey(tr[i].site) == CallKey(tr[j].site) ==> i == j)
            && (tr[i].Put? && tr[j].Put? && CallKey(tr[i].site) == CallKey(tr[j].site) ==> i == j)
            && (tr[i].Ctl? && tr[j].Ctl? && ControlKey(tr[i].key) == ControlKey(tr[j].key) ==> i == j)
  {
    var tr := Run(w, prog, input).tr;
    AddressesIdentifyLeaves(w, prog, input);
    if tr[i].Called? && tr[j].Called? && CallKey(tr[i].site) == CallKey(tr[j].site) {
      CallKeyInjective(tr[i].site, tr[j].site);
    }
    if tr[i].Put? && tr[j].Put? && CallKey(tr[i].site) == CallKey(tr[j].site) {
      CallKeyInjective(tr[i].site, tr[j].site);
    }
    if tr[i].Ctl? && tr[j].Ctl? && ControlKey(tr[i].key) == ControlKey(tr[j].key) {
      ControlKeyInjective(tr[i].key, tr[j].key);
    }
    if i < j { assert !Clash(tr[i], tr[j]); } else if j < i { assert !Clash(tr[j], tr[i]); }
  }
}
