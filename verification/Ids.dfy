/** The id columns of the three dictionaries and the sequences that number them. */
module Ids {
  import opened JsonArgs
  import opened Dictionary
  import opened Sequences

  /** The largest id a column holds: the first two are 16 bits wide. */
  function Last(kind: Kind): Int32 {
    if kind == Addressees then 0x7FFF_FFFF else 0x7FFF
  }

  /** A sequence that has issued nothing yet starts at 1. */
  function NextIn(next: map<Kind, nat>, kind: Kind): nat {
    if kind in next then next[kind] else 1
  }

  function Advance(next: map<Kind, nat>, kind: Kind): map<Kind, nat> {
    next[kind := NextIn(next, kind) + 1]
  }

  /** A sequence ends one past the last id it has issued. */
  ghost predicate Counting(next: map<Kind, nat>) {
    forall k :: 1 <= NextIn(next, k) <= Last(k) + 1
  }

  lemma EveryKind(k: Kind)
    ensures k in ALL_KINDS
  {
    match k case Contracts => case Functions => case Addressees =>
  }

  function Only(words: set<Word>, kind: Kind): set<Word> {
    set w | w in words && KindOf(w) == kind
  }

  // ---------- drawing ids for a save ----------

  /** Every word of a kind costs its sequence one value, new to the dictionary or not. */
  predicate RoomFor(next: map<Kind, nat>, words: set<Word>, kind: Kind) {
    NextIn(next, kind) + |Only(words, kind)| <= Last(kind) + 1
  }

  ghost predicate HasRoom(next: map<Kind, nat>, words: set<Word>) {
    forall kind :: RoomFor(next, words, kind)
  }

  function Draw(next: map<Kind, nat>, kind: Kind, n: nat): map<Kind, nat> {
    if n == 0 then next else next[kind := NextIn(next, kind) + n]
  }

  function DrawAll(next: map<Kind, nat>, words: set<Word>): map<Kind, nat> {
    Draw(Draw(Draw(next, Contracts, |Only(words, Contracts)|), Functions, |Only(words, Functions)|),
         Addressees, |Only(words, Addressees)|)
  }

  /** The dictionary statements of a save, in the order it sends them. */
  const IN_ORDER := [Contracts, Functions, Addressees]

  predicate Writables(words: set<Word>) {
    forall w :: w in words ==> Writable(w)
  }

  /** So many draws, or as many as are left. */
  function DrawUpTo(next: map<Kind, nat>, kind: Kind, n: nat): map<Kind, nat> {
    if NextIn(next, kind) + n <= Last(kind) + 1 then Draw(next, kind, n)
    else if NextIn(next, kind) <= Last(kind) then Draw(next, kind, Last(kind) + 1 - NextIn(next, kind))
    else next
  }

  /** What one dictionary statement leaves: nothing drawn if it is refused, everything if it runs out. */
  function DrawKind(next: map<Kind, nat>, words: set<Word>, kind: Kind): map<Kind, nat> {
    if Writables(Only(words, kind)) then DrawUpTo(next, kind, |Only(words, kind)|) else next
  }

  predicate Granted(next: map<Kind, nat>, words: set<Word>, kind: Kind) {
    Writables(Only(words, kind)) && RoomFor(next, words, kind)
  }

  /** The sequences after these statements, the first failure ending them. */
  function DrawKinds(next: map<Kind, nat>, words: set<Word>, kinds: seq<Kind>): map<Kind, nat>
    decreases |kinds|
  {
    if kinds == [] then next
    else if Granted(next, words, kinds[0]) then DrawKinds(DrawKind(next, words, kinds[0]), words, kinds[1..])
    else DrawKind(next, words, kinds[0])
  }

  /** Sequences that have moved on, each within its column. */
  ghost predicate Advances(next: map<Kind, nat>, next': map<Kind, nat>) {
    forall k :: NextIn(next, k) <= NextIn(next', k) <= Last(k) + 1
  }

  lemma DrawMoves(next: map<Kind, nat>, kind: Kind, n: nat, k: Kind)
    ensures NextIn(Draw(next, kind, n), k) == NextIn(next, k) + if k == kind then n else 0
  {
  }

  lemma DrawAllMoves(next: map<Kind, nat>, words: set<Word>, k: Kind)
    ensures NextIn(DrawAll(next, words), k) == NextIn(next, k) + |Only(words, k)|
  {
    var x := Draw(next, Contracts, |Only(words, Contracts)|);
    var y := Draw(x, Functions, |Only(words, Functions)|);
    DrawMoves(next, Contracts, |Only(words, Contracts)|, k);
    DrawMoves(x, Functions, |Only(words, Functions)|, k);
    DrawMoves(y, Addressees, |Only(words, Addressees)|, k);
    EveryKind(k);
  }

  /** With room for all of them, drawing for a save stays within the columns. */
  lemma DrawAllAdvances(next: map<Kind, nat>, words: set<Word>)
    requires HasRoom(next, words)
    ensures Advances(next, DrawAll(next, words))
  {
    forall k ensures NextIn(next, k) <= NextIn(DrawAll(next, words), k) <= Last(k) + 1 {
      DrawAllMoves(next, words, k);
      assert RoomFor(next, words, k);
    }
  }

  lemma RoomKeepsCounting(next: map<Kind, nat>, words: set<Word>)
    requires Counting(next) && HasRoom(next, words)
    ensures Counting(DrawAll(next, words))
  {
    DrawAllAdvances(next, words);
    forall k ensures 1 <= NextIn(DrawAll(next, words), k) <= Last(k) + 1 {
      assert 1 <= NextIn(next, k) <= NextIn(DrawAll(next, words), k) <= Last(k) + 1;
    }
  }

  lemma DrawKindAdvances(next: map<Kind, nat>, words: set<Word>, kind: Kind)
    requires Counting(next)
    ensures Advances(next, DrawKind(next, words, kind)) && Counting(DrawKind(next, words, kind))
  {
    forall k ensures 1 <= NextIn(next, k) <= NextIn(DrawKind(next, words, kind), k) <= Last(k) + 1 {
      assert 1 <= NextIn(next, k) <= Last(k) + 1 && 1 <= NextIn(next, kind) <= Last(kind) + 1;
    }
  }

  lemma {:induction false} DrawKindsAdvance(next: map<Kind, nat>, words: set<Word>, kinds: seq<Kind>)
    requires Counting(next)
    ensures Advances(next, DrawKinds(next, words, kinds)) && Counting(DrawKinds(next, words, kinds))
    decreases |kinds|
  {
    if kinds == [] {
    } else {
      DrawKindAdvances(next, words, kinds[0]);
      if Granted(next, words, kinds[0]) {
        DrawKindsAdvance(DrawKind(next, words, kinds[0]), words, kinds[1..]);
      }
    }
  }

  /** What the first n statements leave. */
  lemma StatementsDraw(next: map<Kind, nat>, words: set<Word>, n: nat)
    requires n <= 3
    ensures var x := DrawKind(next, words, Contracts);
            var y := DrawKind(x, words, Functions);
            DrawKinds(next, words, IN_ORDER[..n]) ==
            if n == 0 then next
            else if n == 1 || !Granted(next, words, Contracts) then x
            else if n == 2 || !Granted(x, words, Functions) then y
            else DrawKind(y, words, Addressees)
  {
    if n > 0 {
      var x, rest := DrawKind(next, words, Contracts), IN_ORDER[..n][1..];
      assert rest == [Functions, Addressees][..n - 1];
      if n > 1 {
        assert rest[0] == Functions && rest[1..] == [Addressees][..n - 2];
        var y := DrawKind(x, words, Functions);
        assert DrawKinds(y, words, rest[1..]) == if n == 2 then y else DrawKind(y, words, Addressees);
      }
    }
  }

  lemma StatementsSucceed(next: map<Kind, nat>, words: set<Word>)
    ensures var x := DrawKind(next, words, Contracts);
            var y := DrawKind(x, words, Functions);
            Granted(next, words, Contracts) && Granted(x, words, Functions) && Granted(y, words, Addressees) <==>
            HasRoom(next, words) && Writables(words)
  {
    if HasRoom(next, words) && Writables(words) {
      assert RoomFor(next, words, Contracts) && RoomFor(next, words, Functions) && RoomFor(next, words, Addressees);
    }
    var x := DrawKind(next, words, Contracts);
    var y := DrawKind(x, words, Functions);
    if Granted(next, words, Contracts) && Granted(x, words, Functions) && Granted(y, words, Addressees) {
      forall kind ensures RoomFor(next, words, kind) { EveryKind(kind); }
      forall w | w in words ensures Writable(w) {
        EveryKind(KindOf(w));
        assert w in Only(words, KindOf(w));
      }
    }
  }

  /** The three statements draw exactly what a save needs when there is room and nothing is refused. */
  lemma InOrderIsAll(next: map<Kind, nat>, words: set<Word>)
    requires HasRoom(next, words) && Writables(words)
    ensures DrawKinds(next, words, IN_ORDER) == DrawAll(next, words)
  {
    StatementsDraw(next, words, 3);
    StatementsSucceed(next, words);
    assert IN_ORDER[..3] == IN_ORDER;
  }

  /** A statement looks at the words of its own kind only. */
  lemma OwnKindOnly(next: map<Kind, nat>, words: set<Word>, kind: Kind)
    ensures DrawKind(next, Only(words, kind), kind) == DrawKind(next, words, kind)
    ensures Granted(next, Only(words, kind), kind) <==> Granted(next, words, kind)
  {
    assert Only(Only(words, kind), kind) == Only(words, kind);
  }

  // ---------- words over several saves ----------

  lemma OnlyMore(words: set<Word>, more: set<Word>, kind: Kind)
    requires words !! more
    ensures |Only(words + more, kind)| == |Only(words, kind)| + |Only(more, kind)|
  {
    assert Only(words + more, kind) == Only(words, kind) + Only(more, kind);
  }

  lemma LessRoomNeeded(next: map<Kind, nat>, words: set<Word>, fewer: set<Word>)
    requires HasRoom(next, words) && fewer <= words
    ensures HasRoom(next, fewer)
  {
    forall kind ensures RoomFor(next, fewer, kind) {
      assert RoomFor(next, words, kind);
      SubsetSize(Only(fewer, kind), Only(words, kind));
    }
  }
}
