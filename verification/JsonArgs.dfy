/**
 Address placeholders in stored arguments: addresses leave the tree as {"$a": id} and
 come back from a single lookup a page.
 */
module JsonArgs {
  import opened Wrappers
  import opened Decimal
  import opened JsonTree

  type Int32 = x: int | -0x8000_0000 <= x < 0x8000_0000

  // ---------- what is an address, what is a placeholder ----------

  predicate IsAddress(s: string) {
    && |s| == 56 && (s[0] == 'G' || s[0] == 'C')
    && forall i :: 1 <= i < 56 ==> 'A' <= s[i] <= 'Z' || '2' <= s[i] <= '7'
  }

  /** The number a decimal text spells, sign allowed, if it fits 32 bits. */
  function ParseInt32(s: string): Option<Int32> {
    var signed := s != "" && (s[0] == '-' || s[0] == '+');
    var digits := if signed then s[1..] else s;
    if digits == "" || !AllDigits(digits) then None
    else
      var n: int := if s[0] == '-' then 0 - Value(digits) else Value(digits);
      if -0x8000_0000 <= n < 0x8000_0000 then Some(n) else None
  }

  function PlaceholderId(fields: map<string, Json>): Option<Int32> {
    if |fields| != 1 || "$a" !in fields || !fields["$a"].Number? then None
    else ParseInt32(fields["$a"].digits)
  }

  function Placeholder(id: Int32): Json {
    Object(map["$a" := Number(PrintInt(id))])
  }

  /** A decimal text of the number, with or without a sign of its own. */
  ghost predicate SpellsInt(text: string, digits: string, n: int) {
    && digits != "" && AllDigits(digits)
    && ((text in {digits, "+" + digits} && n == Value(digits)) || (text == "-" + digits && n == 0 - Value(digits)))
  }

  lemma ParseInt32Exactly(text: string, n: Int32)
    ensures ParseInt32(text) == Some(n) <==> exists digits :: SpellsInt(text, digits, n)
  {
    if ParseInt32(text) == Some(n) {
      if text[0] in {'-', '+'} {
        assert text == [text[0]] + text[1..];
        assert SpellsInt(text, text[1..], n);
      } else {
        assert SpellsInt(text, text, n);
      }
    }
    if digits :| SpellsInt(text, digits, n) {
      assert IsDigit(digits[0]) && ("+" + digits)[1..] == digits && ("-" + digits)[1..] == digits;
    }
  }

  /** The objects that read as a placeholder: "$a" alone, with a number of 32 bits. */
  lemma PlaceholdersExactly(fields: map<string, Json>, id: Int32)
    ensures PlaceholderId(fields) == Some(id) <==>
            exists text, digits :: fields == map["$a" := Number(text)] && SpellsInt(text, digits, id)
  {
    if PlaceholderId(fields) == Some(id) {
      var text := fields["$a"].digits;
      OnlyKey(fields, "$a");
      ParseInt32Exactly(text, id);
      var digits :| SpellsInt(text, digits, id);
      assert fields == map["$a" := Number(text)] && SpellsInt(text, digits, id);
    }
    if text, digits :| fields == map["$a" := Number(text)] && SpellsInt(text, digits, id) {
      ParseInt32Exactly(text, id);
    }
  }

  lemma OnlyKey(fields: map<string, Json>, k: string)
    requires |fields| == 1 && k in fields
    ensures fields == map[k := fields[k]]
  {
    var rest := fields.Keys - {k};
    assert |rest| == 0;
    forall x | x in fields ensures x == k { assert x !in rest; }
  }

  lemma ParsesWhatItPrints(id: Int32)
    ensures ParseInt32(PrintInt(id)) == Some(id)
  {
    if id < 0 {
      PrintRoundTrip(0 - id);
      SignedParses(Print(0 - id));
    } else {
      PrintRoundTrip(id);
      UnsignedParses(Print(id));
    }
  }

  lemma SignedParses(digits: string)
    requires digits != "" && AllDigits(digits) && Value(digits) <= 0x8000_0000
    ensures ParseInt32("-" + digits) == Some(0 - Value(digits))
  {
    assert ("-" + digits)[1..] == digits;
  }

  lemma UnsignedParses(digits: string)
    requires digits != "" && AllDigits(digits) && Value(digits) < 0x8000_0000
    ensures ParseInt32(digits) == Some(Value(digits))
  {
    assert IsDigit(digits[0]);
  }

  // ---------- the four walks over a tree ----------

  function Addresses(v: Json): set<string> {
    match v
    case Text(text) => if IsAddress(text) then {text} else {}
    case Array(items) => set i, a | 0 <= i < |items| && a in Addresses(items[i]) :: a
    case Object(fields) => set k, a | k in fields && a in Addresses(fields[k]) :: a
    case _ => {}
  }

  /** A missing id reads as 0, as a lookup in the program does. */
  function IdOf(ids: map<string, Int32>, address: string): Int32 {
    if address in ids then ids[address] else 0
  }

  function AddressOf(addrs: map<Int32, string>, id: Int32): string {
    if id in addrs then addrs[id] else ""
  }

  function Rewritten(v: Json, ids: map<string, Int32>): Json {
    match v
    case Text(text) => if IsAddress(text) then Placeholder(IdOf(ids, text)) else v
    case Array(items) => Array(seq(|items|, i requires 0 <= i < |items| => Rewritten(items[i], ids)))
    case Object(fields) => Object(map k | k in fields :: Rewritten(fields[k], ids))
    case _ => v
  }

  function PlaceholderIds(v: Json): set<Int32> {
    match v
    case Array(items) => set i, id | 0 <= i < |items| && id in PlaceholderIds(items[i]) :: id
    case Object(fields) =>
      if PlaceholderId(fields).Some? then {PlaceholderId(fields).value}
      else set k, id | k in fields && id in PlaceholderIds(fields[k]) :: id
    case _ => {}
  }

  function Resolved(v: Json, addrs: map<Int32, string>): Json {
    match v
    case Array(items) => Array(seq(|items|, i requires 0 <= i < |items| => Resolved(items[i], addrs)))
    case Object(fields) =>
      if PlaceholderId(fields).Some? then Text(AddressOf(addrs, PlaceholderId(fields).value))
      else Object(map k | k in fields :: Resolved(fields[k], addrs))
    case _ => v
  }

  // ---------- the round trip ----------

  /** No object of the tree already reads as a placeholder. */
  ghost predicate Plain(v: Json) {
    match v
    case Array(items) => forall i :: 0 <= i < |items| ==> Plain(items[i])
    case Object(fields) => PlaceholderId(fields).None? && forall k :: k in fields ==> Plain(fields[k])
    case _ => true
  }

  /** The dictionary the reader uses undoes the one the writer used, on these addresses. */
  ghost predicate Undoes(addrs: map<Int32, string>, ids: map<string, Int32>, used: set<string>) {
    forall a :: a in used ==> a in ids && ids[a] in addrs && addrs[ids[a]] == a
  }

  lemma PlaceholderReads(id: Int32)
    ensures Placeholder(id).Object? && PlaceholderId(Placeholder(id).fields) == Some(id)
  {
    ParsesWhatItPrints(id);
    assert Placeholder(id).fields.Keys == {"$a"};
  }

  lemma RewritingKeepsNumbers(v: Json, ids: map<string, Int32>)
    ensures Rewritten(v, ids).Number? <==> v.Number?
    ensures v.Number? ==> Rewritten(v, ids) == v
  {
  }

  /** Rewriting what is inside an object never makes it a placeholder, not even under the key "$a". */
  lemma RewritingMakesNoPlaceholder(fields: map<string, Json>, ids: map<string, Int32>)
    ensures PlaceholderId(Rewritten(Object(fields), ids).fields) == PlaceholderId(fields)
  {
    var after := Rewritten(Object(fields), ids).fields;
    assert after.Keys == fields.Keys;
    assert |after| == |after.Keys| && |fields| == |fields.Keys|;
    if "$a" in fields { RewritingKeepsNumbers(fields["$a"], ids); }
  }

  lemma AddressesOfItem(items: seq<Json>, i: nat)
    requires i < |items|
    ensures Addresses(items[i]) <= Addresses(Array(items))
  {
  }

  lemma AddressesOfField(fields: map<string, Json>, k: string)
    requires k in fields
    ensures Addresses(fields[k]) <= Addresses(Object(fields))
  {
  }

  ghost function FieldsResolved(fields: map<string, Json>, addrs: map<Int32, string>): map<string, Json> {
    map k | k in fields :: Resolved(fields[k], addrs)
  }

  ghost function FieldsRewritten(fields: map<string, Json>, ids: map<string, Int32>): map<string, Json> {
    map k | k in fields :: Rewritten(fields[k], ids)
  }

  lemma SameFields(x: map<string, Json>, y: map<string, Json>)
    requires x.Keys == y.Keys
    ensures x == y <==> forall k :: k in x ==> x[k] == y[k]
  {
  }

  lemma ArrayTrip(items: seq<Json>, ids: map<string, Int32>, addrs: map<Int32, string>)
    requires forall i :: 0 <= i < |items| ==> Resolved(Rewritten(items[i], ids), addrs) == Resolved(items[i], addrs)
    ensures Resolved(Rewritten(Array(items), ids), addrs) == Resolved(Array(items), addrs)
  {
    var between := Rewritten(Array(items), ids).items;
    assert forall i :: 0 <= i < |items| ==> between[i] == Rewritten(items[i], ids);
    assert Resolved(Array(between), addrs).items == Resolved(Array(items), addrs).items;
  }

  lemma FieldsTrip(fields: map<string, Json>, ids: map<string, Int32>, addrs: map<Int32, string>)
    requires forall k :: k in fields ==> Resolved(Rewritten(fields[k], ids), addrs) == Resolved(fields[k], addrs)
    ensures FieldsResolved(FieldsRewritten(fields, ids), addrs) == FieldsResolved(fields, addrs)
  {
    SameFields(FieldsResolved(FieldsRewritten(fields, ids), addrs), FieldsResolved(fields, addrs));
  }

  /** Storing a tree and reading it back shows what reading the tree itself would show. */
  lemma {:induction false} RewritingIsInvisible(v: Json, ids: map<string, Int32>, addrs: map<Int32, string>)
    requires Undoes(addrs, ids, Addresses(v))
    ensures Resolved(Rewritten(v, ids), addrs) == Resolved(v, addrs)
  {
    match v
    case Text(text) =>
      if IsAddress(text) { PlaceholderReads(ids[text]); }
    case Array(items) =>
      forall i | 0 <= i < |items| ensures Resolved(Rewritten(items[i], ids), addrs) == Resolved(items[i], addrs) {
        AddressesOfItem(items, i);
        RewritingIsInvisible(items[i], ids, addrs);
      }
      ArrayTrip(items, ids, addrs);
    case Object(fields) =>
      RewritingMakesNoPlaceholder(fields, ids);
      if PlaceholderId(fields).None? {
        forall k | k in fields ensures Resolved(Rewritten(fields[k], ids), addrs) == Resolved(fields[k], addrs) {
          AddressesOfField(fields, k);
          RewritingIsInvisible(fields[k], ids, addrs);
        }
        FieldsTrip(fields, ids, addrs);
        assert Rewritten(v, ids) == Object(FieldsRewritten(fields, ids));
      }
    case _ =>
  }

  /** Resolving changes a tree exactly when some object of it reads as a placeholder. */
  lemma {:induction false} OnlyLookalikesChange(v: Json, addrs: map<Int32, string>)
    ensures Resolved(v, addrs) == v <==> Plain(v)
  {
    match v
    case Array(items) =>
      forall i | 0 <= i < |items| ensures Resolved(items[i], addrs) == items[i] <==> Plain(items[i]) {
        OnlyLookalikesChange(items[i], addrs);
      }
      assert Resolved(v, addrs).items == items <==>
          forall i :: 0 <= i < |items| ==> Resolved(v, addrs).items[i] == items[i];
    case Object(fields) =>
      if PlaceholderId(fields).None? {
        forall k | k in fields ensures Resolved(fields[k], addrs) == fields[k] <==> Plain(fields[k]) {
          OnlyLookalikesChange(fields[k], addrs);
        }
        SameFields(FieldsResolved(fields, addrs), fields);
      }
    case _ =>
  }

  /**
   Reading back what was stored gives the original tree exactly when the original holds
   no object that reads as a placeholder.
   */
  lemma RoundTripExactly(v: Json, ids: map<string, Int32>, addrs: map<Int32, string>)
    requires Undoes(addrs, ids, Addresses(v))
    ensures Resolved(Rewritten(v, ids), addrs) == v <==> Plain(v)
  {
    RewritingIsInvisible(v, ids, addrs);
    OnlyLookalikesChange(v, addrs);
  }

  /** An on-chain map from the string $a to a 32-bit integer comes back as an address or as empty text. */
  lemma OnChainLookalike(id: Int32, addrs: map<Int32, string>)
    ensures !Plain(Placeholder(id))
    ensures Resolved(Rewritten(Placeholder(id), map[]), addrs) == Text(AddressOf(addrs, id))
  {
    PlaceholderReads(id);
    RewritingMakesNoPlaceholder(Placeholder(id).fields, map[]);
  }

  /** Taking the addresses out of a tree changes nothing about whether it can be stored. */
  lemma {:induction false} RewritingKeepsNul(v: Json, ids: map<string, Int32>)
    ensures TreeFreeOfNul(Rewritten(v, ids)) <==> TreeFreeOfNul(v)
  {
    match v
    case Text(text) =>
      if IsAddress(text) { AddressFreeOfNul(text); }
    case Array(items) =>
      var after := Rewritten(v, ids).items;
      forall i | 0 <= i < |items| ensures TreeFreeOfNul(after[i]) <==> TreeFreeOfNul(items[i]) {
        RewritingKeepsNul(items[i], ids);
      }
    case Object(fields) =>
      var after := Rewritten(v, ids).fields;
      assert after.Keys == fields.Keys;
      forall k | k in fields ensures TreeFreeOfNul(after[k]) <==> TreeFreeOfNul(fields[k]) {
        RewritingKeepsNul(fields[k], ids);
      }
    case _ =>
  }

  lemma AddressFreeOfNul(a: string)
    requires IsAddress(a)
    ensures FreeOfNul(a)
  {
  }

  // ---------- which ids a page looks up ----------

  lemma {:induction false} OnlyTheseMatter(v: Json, x: map<Int32, string>, y: map<Int32, string>)
    requires forall id :: id in PlaceholderIds(v) ==> AddressOf(x, id) == AddressOf(y, id)
    ensures Resolved(v, x) == Resolved(v, y)
  {
    match v
    case Array(items) =>
      forall i | 0 <= i < |items| ensures Resolved(items[i], x) == Resolved(items[i], y) {
        OnlyTheseMatter(items[i], x, y);
      }
    case Object(fields) =>
      if PlaceholderId(fields).None? {
        forall k | k in fields ensures Resolved(fields[k], x) == Resolved(fields[k], y) {
          OnlyTheseMatter(fields[k], x, y);
        }
        assert (map k | k in fields :: Resolved(fields[k], x)) == (map k | k in fields :: Resolved(fields[k], y));
      }
    case _ =>
  }

  lemma {:induction false} EachMatters(v: Json, id: Int32, x: map<Int32, string>, y: map<Int32, string>)
    requires id in PlaceholderIds(v) && AddressOf(x, id) != AddressOf(y, id)
    ensures Resolved(v, x) != Resolved(v, y)
  {
    match v
    case Array(items) =>
      var i :| 0 <= i < |items| && id in PlaceholderIds(items[i]);
      EachMatters(items[i], id, x, y);
      assert Resolved(v, x).items[i] != Resolved(v, y).items[i];
    case Object(fields) =>
      if PlaceholderId(fields).None? {
        var k :| k in fields && id in PlaceholderIds(fields[k]);
        EachMatters(fields[k], id, x, y);
        assert Resolved(v, x).fields[k] != Resolved(v, y).fields[k];
      }
  }

  ghost predicate DifferOnlyAt(x: map<Int32, string>, y: map<Int32, string>, id: Int32) {
    forall other :: other != id ==> AddressOf(x, other) == AddressOf(y, other)
  }

  /** Resolving looks an id up when a change of that one entry can show in the result. */
  ghost predicate Consults(v: Json, id: Int32) {
    exists x, y :: DifferOnlyAt(x, y, id) && Resolved(v, x) != Resolved(v, y)
  }

  /** The ids collected for a page are exactly the ones resolving it consults. */
  lemma CollectsExactlyWhatIsConsulted(v: Json, id: Int32)
    ensures id in PlaceholderIds(v) <==> Consults(v, id)
  {
    if id in PlaceholderIds(v) {
      var x, y := map[], map[id := "G"];
      EachMatters(v, id, x, y);
      assert DifferOnlyAt(x, y, id);
    } else {
      forall x, y | DifferOnlyAt(x, y, id) ensures Resolved(v, x) == Resolved(v, y) {
        OnlyTheseMatter(v, x, y);
      }
    }
  }

  lemma {:induction false} NothingToLookUp(v: Json, addrs: map<Int32, string>)
    requires PlaceholderIds(v) == {}
    ensures Resolved(v, addrs) == v
  {
    match v
    case Array(items) =>
      forall i | 0 <= i < |items| ensures Resolved(items[i], addrs) == items[i] {
        assert PlaceholderIds(items[i]) <= PlaceholderIds(v);
        NothingToLookUp(items[i], addrs);
      }
      assert Resolved(v, addrs).items == items;
    case Object(fields) =>
      assert PlaceholderId(fields).None?;
      forall k | k in fields ensures Resolved(fields[k], addrs) == fields[k] {
        assert PlaceholderIds(fields[k]) <= PlaceholderIds(v);
        NothingToLookUp(fields[k], addrs);
      }
      assert Resolved(v, addrs).fields == fields;
    case _ =>
  }

  ghost predicate Refers(v: Json, ids: map<string, Int32>, id: Int32) {
    id in PlaceholderIds(v) || exists a :: a in Addresses(v) && IdOf(ids, a) == id
  }

  lemma {:induction false} StoredId(v: Json, ids: map<string, Int32>, id: Int32)
    ensures id in PlaceholderIds(Rewritten(v, ids)) <==> Refers(v, ids, id)
  {
    match v
    case Text(text) =>
      if IsAddress(text) { PlaceholderReads(IdOf(ids, text)); }
    case Array(items) =>
      forall i | 0 <= i < |items|
        ensures id in PlaceholderIds(Rewritten(items[i], ids)) <==> Refers(items[i], ids, id)
      {
        StoredId(items[i], ids, id);
      }
      StoredIdOfArray(items, ids, id);
    case Object(fields) =>
      RewritingMakesNoPlaceholder(fields, ids);
      if PlaceholderId(fields).None? {
        forall k | k in fields
          ensures id in PlaceholderIds(Rewritten(fields[k], ids)) <==> Refers(fields[k], ids, id)
        {
          StoredId(fields[k], ids, id);
        }
        StoredIdOfObject(fields, ids, id);
      } else {
        LookalikeHasNoAddress(fields);
      }
    case _ =>
  }

  lemma StoredIdOfArray(items: seq<Json>, ids: map<string, Int32>, id: Int32)
    requires forall i :: 0 <= i < |items| ==>
        (id in PlaceholderIds(Rewritten(items[i], ids)) <==> Refers(items[i], ids, id))
    ensures id in PlaceholderIds(Rewritten(Array(items), ids)) <==> Refers(Array(items), ids, id)
  {
    var w := Rewritten(Array(items), ids).items;
    assert forall i :: 0 <= i < |items| ==> w[i] == Rewritten(items[i], ids);
    assert Refers(Array(items), ids, id) <==> exists i :: 0 <= i < |items| && Refers(items[i], ids, id);
  }

  lemma StoredIdOfObject(fields: map<string, Json>, ids: map<string, Int32>, id: Int32)
    requires PlaceholderId(fields).None? && PlaceholderId(Rewritten(Object(fields), ids).fields).None?
    requires forall k :: k in fields ==>
        (id in PlaceholderIds(Rewritten(fields[k], ids)) <==> Refers(fields[k], ids, id))
    ensures id in PlaceholderIds(Rewritten(Object(fields), ids)) <==> Refers(Object(fields), ids, id)
  {
    var w := Rewritten(Object(fields), ids).fields;
    assert w.Keys == fields.Keys && forall k :: k in fields ==> w[k] == Rewritten(fields[k], ids);
    assert Refers(Object(fields), ids, id) <==> exists k :: k in fields && Refers(fields[k], ids, id);
  }

  /** What a stored tree refers to: the ids of its addresses, besides what looked like ids already. */
  lemma StoredIds(v: Json, ids: map<string, Int32>)
    ensures PlaceholderIds(Rewritten(v, ids)) == (set a | a in Addresses(v) :: IdOf(ids, a)) + PlaceholderIds(v)
  {
    forall id ensures id in PlaceholderIds(Rewritten(v, ids)) <==> Refers(v, ids, id) { StoredId(v, ids, id); }
  }

  lemma LookalikeHasNoAddress(fields: map<string, Json>)
    requires PlaceholderId(fields).Some?
    ensures Addresses(Object(fields)) == {}
  {
    assert |fields.Keys| == 1 && "$a" in fields.Keys;
    OneElement(fields.Keys, "$a");
  }

  lemma OneElement(s: set<string>, x: string)
    requires |s| == 1 && x in s
    ensures s == {x}
  {
    assert |s - {x}| == 0;
  }

  // ---------- the program's own loops ----------

  function AddressesAmong(items: seq<Json>, n: nat): set<string>
    requires n <= |items|
  {
    set j, a | 0 <= j < n && a in Addresses(items[j]) :: a
  }

  function AddressesUnder(fields: map<string, Json>, keys: set<string>): set<string> {
    set k, a | k in fields && k in keys && a in Addresses(fields[k]) :: a
  }

  function IdsAmong(items: seq<Json>, n: nat): set<Int32>
    requires n <= |items|
  {
    set j, id | 0 <= j < n && id in PlaceholderIds(items[j]) :: id
  }

  function IdsUnder(fields: map<string, Json>, keys: set<string>): set<Int32> {
    set k, id | k in fields && k in keys && id in PlaceholderIds(fields[k]) :: id
  }

  lemma IdsUnderOneMore(fields: map<string, Json>, keys: set<string>, k: string)
    requires k in fields
    ensures IdsUnder(fields, keys + {k}) == IdsUnder(fields, keys) + PlaceholderIds(fields[k])
  {
  }

  lemma AddressesUnderOneMore(fields: map<string, Json>, keys: set<string>, k: string)
    requires k in fields
    ensures AddressesUnder(fields, keys + {k}) == AddressesUnder(fields, keys) + Addresses(fields[k])
  {
  }

  lemma AllAddresses(fields: map<string, Json>)
    ensures AddressesUnder(fields, fields.Keys) == Addresses(Object(fields))
  {
  }

  lemma AllIds(fields: map<string, Json>)
    requires PlaceholderId(fields).None?
    ensures IdsUnder(fields, fields.Keys) == PlaceholderIds(Object(fields))
  {
  }

  lemma OneMoreKey(all: set<string>, left: set<string>, done: set<string>, k: string)
    requires k in left && left <= all && done == all - left
    ensures done + {k} == all - (left - {k}) && |left - {k}| < |left|
  {
    assert left == (left - {k}) + {k};
  }

  /** The fields are visited in any order; the set only grows. */
  method CollectAddressesUnder(v: Json, seen: set<string>) returns (all: set<string>)
    requires v.Object?
    ensures all == seen + Addresses(v)
    decreases v, 0
  {
    all := seen;
    var fields := v.fields;
    var left := fields.Keys;
    ghost var done: set<string> := {};
    while left != {}
      invariant left <= fields.Keys && done == fields.Keys - left
      invariant all == seen + AddressesUnder(fields, done)
      decreases |left|
    {
      var k :| k in left;
      all := CollectAddresses(fields[k], all);
      AddressesUnderOneMore(fields, done, k);
      OneMoreKey(fields.Keys, left, done, k);
      left, done := left - {k}, done + {k};
    }
    AllAddresses(fields);
  }

  method CollectAddresses(v: Json, seen: set<string>) returns (all: set<string>)
    ensures all == seen + Addresses(v)
    decreases v, 1
  {
    all := seen;
    match v {
      case Text(text) =>
        if IsAddress(text) { all := all + {text}; }
      case Array(items) =>
        var i := 0;
        while i < |items|
          invariant 0 <= i <= |items|
          invariant all == seen + AddressesAmong(items, i)
        {
          all := CollectAddresses(items[i], all);
          i := i + 1;
        }
        assert AddressesAmong(items, i) == Addresses(v);
      case Object(fields) =>
        all := CollectAddressesUnder(v, all);
      case _ =>
    }
  }

  method CollectUnder(v: Json, seen: set<Int32>) returns (all: set<Int32>)
    requires v.Object?
    ensures all == seen + IdsUnder(v.fields, v.fields.Keys)
    decreases v, 0
  {
    all := seen;
    var fields := v.fields;
    var left := fields.Keys;
    ghost var done: set<string> := {};
    while left != {}
      invariant left <= fields.Keys && done == fields.Keys - left
      invariant all == seen + IdsUnder(fields, done)
      decreases |left|
    {
      var k :| k in left;
      all := CollectPlaceholderIds(fields[k], all);
      IdsUnderOneMore(fields, done, k);
      OneMoreKey(fields.Keys, left, done, k);
      left, done := left - {k}, done + {k};
    }
    assert done == fields.Keys;
  }

  lemma AllIdsAmong(items: seq<Json>)
    ensures IdsAmong(items, |items|) == PlaceholderIds(Array(items))
  {
  }

  method CollectPlaceholderIds(v: Json, seen: set<Int32>) returns (all: set<Int32>)
    ensures all == seen + PlaceholderIds(v)
    decreases v, 1
  {
    all := seen;
    match v {
      case Array(items) =>
        var i := 0;
        while i < |items|
          invariant 0 <= i <= |items|
          invariant all == seen + IdsAmong(items, i)
        {
          all := CollectPlaceholderIds(items[i], all);
          i := i + 1;
        }
        AllIdsAmong(items);
      case Object(fields) =>
        var id := PlaceholderId(fields);
        if id.Some? { return all + {id.value}; }
        all := CollectUnder(v, all);
        AllIds(fields);
      case _ =>
    }
  }

  /** Each field is replaced where it stands. */
  method RewriteUnder(v: Json, ids: map<string, Int32>) returns (r: Json)
    requires v.Object?
    ensures r == Rewritten(v, ids)
    decreases v, 0
  {
    var fields, val := v.fields, v.fields;
    var left := fields.Keys;
    while left != {}
      invariant left <= fields.Keys && val.Keys == fields.Keys
      invariant forall k :: k in fields ==> val[k] == if k in left then fields[k] else Rewritten(fields[k], ids)
      decreases |left|
    {
      var k :| k in left;
      var item := RewriteAddresses(val[k], ids);
      val := val[k := item];
      left := left - {k};
    }
    assert val == Rewritten(v, ids).fields;
    r := Object(val);
  }

  method RewriteAddresses(v: Json, ids: map<string, Int32>) returns (r: Json)
    ensures r == Rewritten(v, ids)
    decreases v, 1
  {
    r := v;
    match v {
      case Text(text) =>
        if IsAddress(text) { return Placeholder(IdOf(ids, text)); }
      case Array(items) =>
        var val := items;
        var i := 0;
        while i < |items|
          invariant 0 <= i <= |items| && |val| == |items|
          invariant forall j :: 0 <= j < |items| ==> val[j] == if j < i then Rewritten(items[j], ids) else items[j]
        {
          var item := RewriteAddresses(val[i], ids);
          val := val[i := item];
          i := i + 1;
        }
        assert val == Rewritten(v, ids).items;
        r := Array(val);
      case Object(fields) =>
        r := RewriteUnder(v, ids);
      case _ =>
    }
  }

  /** The fields of an object that is no placeholder itself. */
  method ResolveUnder(v: Json, addrs: map<Int32, string>) returns (r: Json)
    requires v.Object? && PlaceholderId(v.fields).None?
    ensures r == Resolved(v, addrs)
    decreases v, 0
  {
    var fields, val := v.fields, v.fields;
    var left := fields.Keys;
    while left != {}
      invariant left <= fields.Keys && val.Keys == fields.Keys
      invariant forall k :: k in fields ==> val[k] == if k in left then fields[k] else Resolved(fields[k], addrs)
      decreases |left|
    {
      var k :| k in left;
      var item := ResolvePlaceholders(val[k], addrs);
      val := val[k := item];
      left := left - {k};
    }
    assert val == Resolved(v, addrs).fields;
    r := Object(val);
  }

  method ResolvePlaceholders(v: Json, addrs: map<Int32, string>) returns (r: Json)
    ensures r == Resolved(v, addrs)
    decreases v, 1
  {
    r := v;
    match v {
      case Array(items) =>
        var val := items;
        var i := 0;
        while i < |items|
          invariant 0 <= i <= |items| && |val| == |items|
          invariant forall j :: 0 <= j < |items| ==> val[j] == if j < i then Resolved(items[j], addrs) else items[j]
        {
          var item := ResolvePlaceholders(val[i], addrs);
          val := val[i := item];
          i := i + 1;
        }
        assert val == Resolved(v, addrs).items;
        r := Array(val);
      case Object(fields) =>
        var id := PlaceholderId(fields);
        if id.Some? { return Text(AddressOf(addrs, id.value)); }
        r := ResolveUnder(v, addrs);
      case _ =>
    }
  }

  // ---------- a page ----------

  function PageIds(rawArgs: seq<Option<Json>>): set<Int32> {
    set i, id | 0 <= i < |rawArgs| && rawArgs[i].Some? && id in PlaceholderIds(rawArgs[i].value) :: id
  }

  lemma PageIdsOneMore(rawArgs: seq<Option<Json>>, i: nat)
    requires i < |rawArgs|
    ensures PageIds(rawArgs[..i + 1]) ==
            PageIds(rawArgs[..i]) + if rawArgs[i].Some? then PlaceholderIds(rawArgs[i].value) else {}
  {
    var x, y := rawArgs[..i], rawArgs[..i + 1];
    assert forall j :: 0 <= j < i ==> y[j] == x[j];
    assert y[i] == rawArgs[i];
  }

  /**
   Arguments a row shows: none for an absent column, otherwise every id through the whole
   dictionary. A stored JSON null reads as absent on a page that looks anything up.
   */
  function Shown(raw: Option<Json>, looksUp: bool, dictionary: map<Int32, string>): Option<Json> {
    if raw.None? || (looksUp && raw.value.Null?) then None else Some(Resolved(raw.value, dictionary))
  }

  /** What was stored comes back, if the dictionary has its addresses and nothing in it looks like a placeholder. */
  lemma OriginalsShown(rawArgs: seq<Option<Json>>, looksUp: bool, dictionary: map<Int32, string>,
                       out: seq<Option<Json>>)
    requires |out| == |rawArgs|
    requires forall i :: 0 <= i < |out| ==> out[i] == Shown(rawArgs[i], looksUp, dictionary)
    ensures forall i, v, ids ::
              0 <= i < |rawArgs| && rawArgs[i] == Some(Rewritten(v, ids)) ==>
              Plain(v) && !v.Null? && Undoes(dictionary, ids, Addresses(v)) ==> out[i] == Some(v)
  {
    forall i, v, ids | && 0 <= i < |rawArgs| && rawArgs[i] == Some(Rewritten(v, ids))
                       && Plain(v) && !v.Null? && Undoes(dictionary, ids, Addresses(v))
      ensures out[i] == Some(v)
    {
      RoundTripExactly(v, ids, dictionary);
    }
  }

  /**
   One lookup of the collected ids serves the page as the whole dictionary would: a tree
   stored with its addresses taken out comes back with them, and an absent column stays absent.
   */
  method ExpandArgs(rawArgs: seq<Option<Json>>, dictionary: map<Int32, string>) returns (out: seq<Option<Json>>)
    ensures |out| == |rawArgs|
    ensures forall i, v, ids ::
              0 <= i < |rawArgs| && rawArgs[i] == Some(Rewritten(v, ids)) ==>
              Plain(v) && !v.Null? && Undoes(dictionary, ids, Addresses(v)) ==> out[i] == Some(v)
    ensures forall i :: 0 <= i < |rawArgs| && rawArgs[i] == None ==> out[i] == None
    ensures forall i :: 0 <= i < |rawArgs| && rawArgs[i].Some? && !rawArgs[i].value.Null? ==>
              out[i] == Some(Resolved(rawArgs[i].value, dictionary))
    ensures forall i :: 0 <= i < |rawArgs| && rawArgs[i] == Some(Null) ==>
              out[i] == if PageIds(rawArgs) == {} then Some(Null) else None
  {
    var ids: set<Int32> := {};
    var i := 0;
    while i < |rawArgs|
      invariant 0 <= i <= |rawArgs|
      invariant ids == PageIds(rawArgs[..i])
    {
      if rawArgs[i].Some? {
        ids := CollectPlaceholderIds(rawArgs[i].value, ids);
      }
      PageIdsOneMore(rawArgs, i);
      i := i + 1;
    }
    assert rawArgs[..i] == rawArgs;
    if ids == {} {
      forall j | 0 <= j < |rawArgs| ensures rawArgs[j] == Shown(rawArgs[j], false, dictionary) {
        if rawArgs[j].Some? {
          assert forall id :: id in PlaceholderIds(rawArgs[j].value) ==> id in PageIds(rawArgs);
          NothingToLookUp(rawArgs[j].value, dictionary);
        }
      }
      OriginalsShown(rawArgs, false, dictionary, rawArgs);
      return rawArgs;
    }
    var addrs := map id | id in ids && id in dictionary :: dictionary[id];
    out := [];
    i := 0;
    while i < |rawArgs|
      invariant 0 <= i <= |rawArgs| && |out| == i
      invariant forall j :: 0 <= j < i ==> out[j] == Shown(rawArgs[j], true, dictionary)
    {
      if rawArgs[i].None? || rawArgs[i].value.Null? {
        out := out + [None];
      } else {
        OnlyTheseMatter(rawArgs[i].value, addrs, dictionary);
        var shown := ResolvePlaceholders(rawArgs[i].value, addrs);
        out := out + [Some(shown)];
      }
      i := i + 1;
    }
    OriginalsShown(rawArgs, true, dictionary, out);
  }
}
