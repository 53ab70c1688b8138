/** What a shown value still tells: all of it, but for long bytes, error codes and what is not shown at all. */
module ScValShows {
  import opened Bytes
  import opened Decimal
  import opened Display
  import opened ScVal

  /** Nothing of the value is cut, merged with another or left out. */
  predicate ShownWhole(v: Val) {
    match v
    case Error(kind, code) => kind < 10 && (kind == 0 || code == 0)
    case Bin(data) => |data| <= 32
    case List(elements) => AllShownWhole(elements)
    case Dict(cells) => AllShownWhole(cells)
    case NoList => false
    case NoDict => false
    case Instance(_, _, _) => false
    case _ => true
  }

  predicate AllShownWhole(vals: seq<Val>) {
    vals == [] || (ShownWhole(vals[0]) && AllShownWhole(vals[1..]))
  }

  lemma NumbersTellApart(i: int, j: int)
    requires PrintInt(i) == PrintInt(j)
    ensures i == j
  {
    PrintRoundTrip(if i < 0 then -i else i);
    PrintRoundTrip(if j < 0 then -j else j);
    assert i >= 0 ==> IsDigit(PrintInt(i)[0]);
    assert j >= 0 ==> IsDigit(PrintInt(j)[0]);
    assert i < 0 ==> PrintInt(i)[1..] == Print(-i);
    assert j < 0 ==> PrintInt(j)[1..] == Print(-j);
  }

  lemma BytesTellApart(x: ByteString, y: ByteString)
    requires |x| <= 32 && |y| <= 32 && FormatBytes(x) == FormatBytes(y)
    ensures x == y
  {
    FormatShowsWhole(x);
    FormatShowsWhole(y);
  }

  /** The names of the error kinds differ within their first five letters. */
  lemma ErrorNamesDiffer(k: nat, l: nat)
    requires 0 < k < 10 && 0 < l < 10 && ErrorName(k) + " error" == ErrorName(l) + " error"
    ensures k == l
  {
    var s, t := ErrorName(k), ErrorName(l);
    assert s == (s + " error")[..|s + " error"| - 6] && t == (t + " error")[..|t + " error"| - 6];
  }

  lemma ErrorsTellApart(k: nat, c: nat, l: nat, d: nat)
    requires k < 10 && l < 10 && (k == 0 || c == 0) && (l == 0 || d == 0) && ErrorText(k, c) == ErrorText(l, d)
    ensures k == l && c == d
  {
    if k == 0 && l == 0 {
      PrintRoundTrip(c);
      PrintRoundTrip(d);
      assert ErrorText(0, c)[16..] == Print(c) && ErrorText(0, d)[16..] == Print(d);
    } else if k != 0 && l != 0 {
      ErrorNamesDiffer(k, l);
    } else {
      ContractErrorsAreApart(k, c, l, d);
    }
  }

  lemma ContractErrorsAreApart(k: nat, c: nat, l: nat, d: nat)
    ensures (k == 0) != (l == 0) ==> ErrorText(k, c) != ErrorText(l, d)
  {
    assert ErrorText(0, c)[15] == '#' && ErrorText(0, d)[15] == '#';
  }

  /** Two values that look alike are the same. */
  lemma {:induction false} LookingAlikeIsBeingAlike(v: Val, w: Val)
    requires ShownWhole(v) && ShownWhole(w) && Shows(v) == Shows(w)
    ensures v == w
    decreases v, 0
  {
    match v
    case Error(k, c) => ErrorsTellApart(k, c, w.kind, w.code);
    case Num(_, i) => NumbersTellApart(i, w.i);
    case Bin(data) => BytesTellApart(data, w.data);
    case List(elements) => ElementsAlike(elements, w.elements);
    case Dict(cells) => ElementsAlike(cells, w.cells);
    case _ =>
  }

  lemma {:induction false} ElementsAlike(x: seq<Val>, y: seq<Val>)
    requires AllShownWhole(x) && AllShownWhole(y) && ElementsShow(x) == ElementsShow(y)
    ensures x == y
    decreases x, 1
  {
    if x == [] || y == [] {
    } else {
      assert ElementsShow(x)[0] == Shows(x[0]) && ElementsShow(y)[0] == Shows(y[0]);
      assert ElementsShow(x)[1..] == ElementsShow(x[1..]) && ElementsShow(y)[1..] == ElementsShow(y[1..]);
      LookingAlikeIsBeingAlike(x[0], y[0]);
      ElementsAlike(x[1..], y[1..]);
      assert x == [x[0]] + x[1..] && y == [y[0]] + y[1..];
    }
  }
}
