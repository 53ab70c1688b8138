/**
 Contract values, their XDR encoding, and the meaning of the reader: what it makes of
 a byte string and how much of it it consumes.
 */
module ScVal {
  import opened Wrappers
  import opened Bytes
  import opened Decimal
  import opened Display

  const MAX_DEPTH := 8

  // ---------- values and their encoding ----------

  function Width(f: NumForm): (w: nat)
    ensures w > 0
  {
    match f
    case U32 => 4
    case I32 => 4
    case U128 => 16
    case I128 => 16
    case U256 => 32
    case I256 => 32
    case _ => 8
  }

  predicate IsSigned(f: NumForm) {
    f.I32? || f.I64? || f.I128? || f.I256? || f.Nonce?
  }

  function FormTag(f: NumForm): nat {
    match f
    case U32 => 3
    case I32 => 4
    case U64 => 5
    case I64 => 6
    case Timepoint => 7
    case Duration => 8
    case U128 => 9
    case I128 => 10
    case U256 => 11
    case I256 => 12
    case Nonce => 21
  }

  function FormOf(tag: nat): Option<NumForm> {
    match tag
    case 3 => Some(U32)
    case 4 => Some(I32)
    case 5 => Some(U64)
    case 6 => Some(I64)
    case 7 => Some(Timepoint)
    case 8 => Some(Duration)
    case 9 => Some(U128)
    case 10 => Some(I128)
    case 11 => Some(U256)
    case 12 => Some(I256)
    case 21 => Some(Nonce)
    case _ => None
  }

  /**
   A map is its keys and values in turn, as its entries lie in the encoding. Vectors,
   maps and instance storage may be absent.
   */
  datatype Val =
    | Bool(b: bool)
    | Void
    | Error(kind: nat, code: nat)
    | Num(form: NumForm, i: int)
    | Bin(data: ByteString)
    | Str(data: ByteString)
    | Symbol(text: string)
    | NoList
    | List(elements: seq<Val>)
    | NoDict
    | Dict(cells: seq<Val>)
    | Addr(strkey: Strkey)
    | Instance(wasm: Option<ByteString>, stored: bool, cells: seq<Val>)
    | LedgerKey

  predicate FitsUnsigned(n: int, bytes: nat) {
    0 <= n < Pow256(bytes)
  }

  predicate Fits(form: NumForm, i: int) {
    if IsSigned(form) then FitsSigned(i, Width(form)) else FitsUnsigned(i, Width(form))
  }

  predicate FitsSigned(i: int, bytes: nat) {
    -(Pow256(bytes) as int) <= 2 * i < Pow256(bytes)
  }

  predicate IsSymbolChar(c: char) {
    'A' <= c <= 'Z' || 'a' <= c <= 'z' || '0' <= c <= '9' || c == '_'
  }

  predicate IsSymbol(s: string) {
    |s| <= 32 && forall i :: 0 <= i < |s| ==> IsSymbolChar(s[i])
  }

  /** A strkey names the payload its kind fixes; a claimable balance leads with its v0 type byte. */
  predicate ValidStrkey(a: Strkey) {
    match a
    case Account(key) => |key| == 32
    case Contract(hash) => |hash| == 32
    case Muxed(payload) => |payload| == 40
    case ClaimableBalance(payload) => |payload| == 33 && payload[0] == 0
    case LiquidityPool(hash) => |hash| == 32
  }

  /** The values the protocol's own type allows. */
  predicate Valid(v: Val) {
    match v
    case Error(kind, code) => kind < 10 && FitsUnsigned(code, 4)
    case Num(form, i) => Fits(form, i)
    case Bin(data) => FitsUnsigned(|data|, 4)
    case Str(data) => FitsUnsigned(|data|, 4)
    case Symbol(text) => IsSymbol(text)
    case List(elements) => FitsUnsigned(|elements|, 4) && AllValid(elements)
    case Dict(cells) => |cells| % 2 == 0 && FitsUnsigned(|cells| / 2, 4) && AllValid(cells)
    case Addr(a) => ValidStrkey(a)
    case Instance(wasm, stored, cells) =>
      && (wasm.Some? ==> |wasm.value| == 32)
      && (!stored ==> cells == [])
      && |cells| % 2 == 0 && FitsUnsigned(|cells| / 2, 4) && AllValid(cells)
    case _ => true
  }

  predicate AllValid(vals: seq<Val>) {
    vals == [] || (Valid(vals[0]) && AllValid(vals[1..]))
  }

  function U32Xdr(n: int): ByteString {
    BigEndian(if n < 0 then 0 else n, 4)
  }

  /** The two's complement of a negative number, the number itself otherwise. */
  function Wrapped(i: int, bytes: nat): nat {
    if i >= 0 then i else if i + Pow256(bytes) >= 0 then i + Pow256(bytes) else 0
  }

  /** Two's complement, most significant byte first. */
  function IntXdr(i: int, bytes: nat): ByteString {
    BigEndian(Wrapped(i, bytes), bytes)
  }

  function OpaqueXdr(data: ByteString): ByteString {
    U32Xdr(|data|) + data + seq(Padding(|data|), _ => 0)
  }

  function Codes(s: string): ByteString
    requires IsSymbol(s)
  {
    seq(|s|, i requires 0 <= i < |s| => s[i] as int)
  }

  function StrkeyTag(a: Strkey): nat {
    match a
    case Account(_) => 0
    case Contract(_) => 1
    case Muxed(_) => 2
    case ClaimableBalance(_) => 3
    case LiquidityPool(_) => 4
  }

  function StrkeyBody(a: Strkey): ByteString
    requires ValidStrkey(a)
  {
    match a
    case Account(key) => U32Xdr(0) + key
    case Contract(hash) => hash
    case Muxed(payload) => payload[32..] + payload[..32]
    case ClaimableBalance(payload) => U32Xdr(0) + payload[1..]
    case LiquidityPool(hash) => hash
  }

  function AddressXdr(a: Strkey): ByteString
    requires ValidStrkey(a)
  {
    U32Xdr(StrkeyTag(a)) + StrkeyBody(a)
  }

  function Tag(v: Val): nat {
    match v
    case Bool(_) => 0
    case Void => 1
    case Error(_, _) => 2
    case Num(form, _) => FormTag(form)
    case Bin(_) => 13
    case Str(_) => 14
    case Symbol(_) => 15
    case NoList => 16
    case List(_) => 16
    case NoDict => 17
    case Dict(_) => 17
    case Addr(_) => 18
    case Instance(_, _, _) => 19
    case LedgerKey => 20
  }

  function Xdr(v: Val): ByteString
    requires Valid(v)
    decreases v, 1
  {
    U32Xdr(Tag(v)) + Body(v)
  }

  /** The arm of the union, after its discriminant. */
  function Body(v: Val): ByteString
    requires Valid(v)
    decreases v, 0
  {
    match v
    case Bool(b) => U32Xdr(if b then 1 else 0)
    case Void => []
    case Error(kind, code) => U32Xdr(kind) + U32Xdr(code)
    case Num(form, i) => IntXdr(i, Width(form))
    case Bin(data) => OpaqueXdr(data)
    case Str(data) => OpaqueXdr(data)
    case Symbol(text) => OpaqueXdr(Codes(text))
    case NoList => U32Xdr(0)
    case List(elements) => U32Xdr(1) + (U32Xdr(|elements|) + ElementsXdr(elements))
    case NoDict => U32Xdr(0)
    case Dict(cells) => U32Xdr(1) + (U32Xdr(|cells| / 2) + ElementsXdr(cells))
    case Addr(a) => AddressXdr(a)
    case Instance(wasm, stored, cells) =>
      ExecutableXdr(wasm)
      + (if stored then U32Xdr(1) + (U32Xdr(|cells| / 2) + ElementsXdr(cells)) else U32Xdr(0))
    case LedgerKey => []
  }

  function ElementsXdr(vals: seq<Val>): ByteString
    requires AllValid(vals)
    decreases vals
  {
    if vals == [] then [] else Xdr(vals[0]) + ElementsXdr(vals[1..])
  }

  /** How deep containers nest below a value: an element lies one deeper than its container. */
  function Height(v: Val): nat {
    match v
    case List(elements) => ElementsHeight(elements)
    case Dict(cells) => ElementsHeight(cells)
    case Instance(_, _, cells) => ElementsHeight(cells)
    case _ => 0
  }

  function Max(a: nat, b: nat): nat {
    if a < b then b else a
  }

  function ElementsHeight(vals: seq<Val>): nat {
    if vals == [] then 0 else Max(1 + Height(vals[0]), ElementsHeight(vals[1..]))
  }

  // ---------- what a value is shown as ----------

  function ErrorName(kind: nat): string {
    match kind
    case 1 => "wasm vm"
    case 2 => "context"
    case 3 => "storage"
    case 4 => "object"
    case 5 => "crypto"
    case 6 => "events"
    case 7 => "budget"
    case 8 => "value"
    case 9 => "auth"
    case _ => "unknown"
  }

  function ErrorText(kind: nat, code: nat): string {
    if kind == 0 then "contract error #" + Print(code) else ErrorName(kind) + " error"
  }

  function Shows(v: Val): ScDisplay {
    match v
    case Bool(b) => PlainText(BoolText, if b then "true" else "false")
    case Void => PlainText(VoidText, "void")
    case Error(kind, code) => PlainText(FailureText, ErrorText(kind, code))
    case Num(form, i) => PlainText(NumberText(form), PrintInt(i))
    case Bin(data) => PlainText(BytesText, FormatBytes(data))
    case Str(data) => Text(StringText, Utf8(data))
    case Symbol(text) => PlainText(SymbolText, text)
    case NoList => Vec([])
    case List(elements) => Vec(ElementsShow(elements))
    case NoDict => Map([])
    case Dict(cells) => Map(ElementsShow(cells))
    case Addr(a) => Address(a)
    case Instance(_, _, _) => Opaque(ContractInstance)
    case LedgerKey => Opaque(LedgerKeyInstance)
  }

  function ElementsShow(vals: seq<Val>): seq<ScDisplay> {
    if vals == [] then [] else [Shows(vals[0])] + ElementsShow(vals[1..])
  }

  // ---------- what the reader makes of a byte string ----------

  /** A value and how many bytes it took, or nothing at all. */
  datatype Read<+T> = Got(value: T, used: nat) | Bad

  function UnsignedOf(s: ByteString, width: nat): (r: Read<int>)
    ensures r.Got? ==> r.used == width <= |s|
  {
    if |s| < width then Bad else Got(Unsigned(s[..width]), width)
  }

  function SignedOf(s: ByteString, width: nat): (r: Read<int>)
    ensures r.Got? ==> r.used == width <= |s|
  {
    if |s| < width then Bad else Got(Signed(s[..width]), width)
  }

  function OpaqueOf(s: ByteString): (r: Read<ByteString>)
    ensures r.Got? ==> 4 <= r.used <= |s|
  {
    if |s| < 4 then Bad
    else
      var n := Unsigned(s[..4]);
      if n + Padding(n) > |s| - 4 then Bad else Got(s[4..4 + n], 4 + n + Padding(n))
  }

  function FixedOf(s: ByteString, width: nat): (r: Read<ByteString>)
    ensures r.Got? ==> r.used == width <= |s| && |r.value| == width
  {
    if |s| < width then Bad else Got(s[..width], width)
  }

  function NumberOf(form: NumForm, s: ByteString): (r: Read<ScDisplay>)
    ensures r.Got? ==> r.used <= |s|
  {
    match if IsSigned(form) then SignedOf(s, Width(form)) else UnsignedOf(s, Width(form))
    case Bad => Bad
    case Got(n, used) => Got(PlainText(NumberText(form), PrintInt(n)), used)
  }

  function ErrorOf(s: ByteString): (r: Read<ScDisplay>)
    ensures r.Got? ==> r.used <= |s|
  {
    if |s| < 8 then Bad
    else Got(PlainText(FailureText, ErrorText(Unsigned(s[..4]), Unsigned(s[4..8]))), 8)
  }

  function BytesShown(r: Read<ByteString>, asString: bool): Read<ScDisplay> {
    match r
    case Bad => Bad
    case Got(data, used) =>
      Got(if asString then Text(StringText, Utf8(data)) else PlainText(BytesText, FormatBytes(data)), used)
  }

  function Chars(data: ByteString): string {
    seq(|data|, i requires 0 <= i < |data| => data[i] as char)
  }

  function SymbolShown(r: Read<ByteString>): Read<ScDisplay> {
    match r
    case Bad => Bad
    case Got(data, used) => if IsSymbol(Chars(data)) then Got(PlainText(SymbolText, Chars(data)), used) else Bad
  }

  function AddressOf(s: ByteString): (r: Read<ScDisplay>)
    ensures r.Got? ==> r.used <= |s|
  {
    if |s| < 4 then Bad
    else
      match StrkeyOf(Unsigned(s[..4]), s[4..])
      case Bad => Bad
      case Got(a, used) => Got(Address(a), 4 + used)
  }

  /** The payload of each address kind; the strkey of a muxed one wants its id after its key. */
  function StrkeyOf(kind: nat, p: ByteString): (r: Read<Strkey>)
    ensures r.Got? ==> r.used <= |p|
  {
    match kind
    case 0 => if |p| < 36 || Unsigned(p[..4]) != 0 then Bad else Got(Account(p[4..36]), 36)
    case 1 => if |p| < 32 then Bad else Got(Contract(p[..32]), 32)
    case 2 => if |p| < 40 then Bad else Got(Muxed(p[8..40] + p[..8]), 40)
    case 3 => if |p| < 36 || Unsigned(p[..4]) != 0 then Bad else Got(ClaimableBalance([0] + p[4..36]), 36)
    case 4 => if |p| < 32 then Bad else Got(LiquidityPool(p[..32]), 32)
    case _ => Bad
  }

  /** Only a wasm executable carries its 32-byte hash. */
  function ExecutableSize(p: ByteString): nat {
    if |p| >= 4 && Unsigned(p[..4]) == 0 then 36 else 4
  }

  function ExecutableXdr(wasm: Option<ByteString>): ByteString {
    if wasm.Some? then U32Xdr(0) + wasm.value else U32Xdr(1)
  }

  /** Recursion budget left: a value deeper than MAX_DEPTH is refused before it is read. */
  function Budget(depth: nat): nat {
    if depth > MAX_DEPTH + 1 then 0 else MAX_DEPTH + 2 - depth
  }

  function ScValOf(s: ByteString, depth: nat): (r: Read<ScDisplay>)
    ensures r.Got? ==> 4 <= r.used <= |s|
    decreases Budget(depth), 1, 0
  {
    if depth > MAX_DEPTH || |s| < 4 then Bad
    else
      match BodyOf(Unsigned(s[..4]), s[4..], depth)
      case Bad => Bad
      case Got(d, used) => Got(d, 4 + used)
  }

  /** The arm of the union that a discriminant announces. */
  function BodyOf(tag: nat, p: ByteString, depth: nat): (r: Read<ScDisplay>)
    requires depth <= MAX_DEPTH
    ensures r.Got? ==> r.used <= |p|
    decreases Budget(depth), 0, 0
  {
    match tag
    case 16 => ContainerShown(ContainerOf(p, depth + 1, false), false)
    case 17 => ContainerShown(ContainerOf(p, depth + 1, true), true)
    case 19 => InstanceOf(p, depth + 1)
    case _ => LeafOf(tag, p)
  }

  /** The arms that hold no further value. */
  function LeafOf(tag: nat, p: ByteString): (r: Read<ScDisplay>)
    ensures r.Got? ==> r.used <= |p|
  {
    if FormOf(tag).Some? then NumberOf(FormOf(tag).value, p)
    else
      match tag
      case 0 => if |p| < 4 then Bad else Got(PlainText(BoolText, if Unsigned(p[..4]) == 0 then "false" else "true"), 4)
      case 1 => Got(PlainText(VoidText, "void"), 0)
      case 2 => ErrorOf(p)
      case 13 => BytesShown(OpaqueOf(p), false)
      case 14 => BytesShown(OpaqueOf(p), true)
      case 15 => SymbolShown(OpaqueOf(p))
      case 18 => AddressOf(p)
      case 20 => Got(Opaque(LedgerKeyInstance), 0)
      case _ => Bad
  }

  function InstanceOf(p: ByteString, depth: nat): (r: Read<ScDisplay>)
    ensures r.Got? ==> r.used <= |p|
    decreases Budget(depth), 4, 0
  {
    var skip := ExecutableSize(p);
    if |p| < skip then Bad
    else
      match ContainerOf(p[skip..], depth, true)
      case Bad => Bad
      case Got(_, used) => Got(Opaque(ContractInstance), skip + used)
  }

  function ContainerShown(r: Read<seq<ScDisplay>>, paired: bool): Read<ScDisplay> {
    match r
    case Bad => Bad
    case Got(items, used) => Got(if paired then Map(items) else Vec(items), used)
  }

  /** An optional container: a presence flag, then its counted values. */
  function ContainerOf(p: ByteString, depth: nat, paired: bool): (r: Read<seq<ScDisplay>>)
    ensures r.Got? ==> r.used <= |p|
    decreases Budget(depth), 3, 1
  {
    if |p| < 4 || Unsigned(p[..4]) > 1 then Bad
    else if Unsigned(p[..4]) == 0 then Got([], 4)
    else
      match CountedOf(p[4..], depth, paired)
      case Bad => Bad
      case Got(items, used) => Got(items, 4 + used)
  }

  /** A count the payload could hold, at four bytes an entry, and that many entries. */
  function CountedOf(p: ByteString, depth: nat, paired: bool): (r: Read<seq<ScDisplay>>)
    ensures r.Got? ==> r.used <= |p|
    decreases Budget(depth), 3, 0
  {
    if |p| < 4 then Bad
    else
      var count := Unsigned(p[..4]);
      if 4 * count > |p| - 4 then Bad
      else
        match ItemsOf(p[4..], depth, if paired then 2 * count else count)
        case Bad => Bad
        case Got(items, used) => Got(items, 4 + used)
  }

  function ItemsOf(s: ByteString, depth: nat, count: nat): (r: Read<seq<ScDisplay>>)
    ensures r.Got? ==> |r.value| == count && 4 * count <= r.used <= |s|
    decreases Budget(depth), 2, count
  {
    if count == 0 then Got([], 0)
    else
      match ScValOf(s, depth)
      case Bad => Bad
      case Got(d, n) =>
        match ItemsOf(s[n..], depth, count - 1)
        case Bad => Bad
        case Got(rest, m) => Got([d] + rest, n + m)
  }
}
