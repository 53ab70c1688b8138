/** The display form a decoded contract value takes in the explorer. */
module Display {
  import opened Wrappers
  import opened Bytes

  /** The five address kinds, each by the payload its strkey encodes. */
  datatype Strkey =
    | Account(key: ByteString)
    | Contract(hash: ByteString)
    | Muxed(payload: ByteString)
    | ClaimableBalance(payload: ByteString)
    | LiquidityPool(hash: ByteString)

  /** The fixed-width numbers; most of them name the text they are shown as. */
  datatype NumForm = U32 | I32 | U64 | I64 | Timepoint | Duration | U128 | I128 | U256 | I256 | Nonce

  datatype TextKind =
    | BoolText | VoidText | FailureText | NumberText(form: NumForm) | BytesText | StringText | SymbolText

  datatype OpaqueKind = ContractInstance | LedgerKeyInstance

  /**
   The cells of a map are its keys and values in turn. Utf8 stands for the text the platform
   decoder makes of the bytes, cut to 120 characters.
   */
  datatype Shown = Plain(text: string) | Utf8(data: ByteString)

  datatype ScDisplay =
    | Text(kind: TextKind, shown: Shown)
    | Address(strkey: Strkey)
    | Vec(items: seq<ScDisplay>)
    | Map(cells: seq<ScDisplay>)
    | Opaque(shape: OpaqueKind)

  function PlainText(kind: TextKind, text: string): ScDisplay {
    Text(kind, Plain(text))
  }

  const MAX_HEX_BYTES := 32

  /** Whole when it fits, otherwise both ends. */
  function FormatBytes(data: ByteString): string {
    if |data| <= MAX_HEX_BYTES then "0x" + HexEncode(data)
    else "0x" + HexEncode(data[..MAX_HEX_BYTES / 2]) + "..." + HexEncode(data[|data| - MAX_HEX_BYTES / 2..])
  }

  /** Up to 32 bytes nothing is lost. */
  lemma FormatShowsWhole(data: ByteString)
    requires |data| <= 32
    ensures |FormatBytes(data)| == 2 + 2 * |data| && FormatBytes(data)[..2] == "0x"
    ensures HexDecode(FormatBytes(data)[2..]) == Some(data)
  {
    HexRoundTrip(data);
    assert FormatBytes(data)[2..] == HexEncode(data);
  }

  /** Of more, the first 16 bytes and the last 16 are left. */
  lemma FormatShowsBothEnds(data: ByteString)
    requires |data| > 32
    ensures var text := FormatBytes(data);
            && |text| == 69 && text[..2] == "0x" && text[34..37] == "..."
            && HexDecode(text[2..34]) == Some(data[..16]) && HexDecode(text[37..]) == Some(data[|data| - 16..])
  {
    var text, front, back := FormatBytes(data), HexEncode(data[..16]), HexEncode(data[|data| - 16..]);
    HexRoundTrip(data[..16]);
    HexRoundTrip(data[|data| - 16..]);
    assert text == "0x" + front + "..." + back && |front| == 32 && |back| == 32;
    assert text[2..34] == front && text[37..] == back;
  }

  /** How many display nodes a value has, its own included. */
  function Nodes(d: ScDisplay): (n: nat)
    ensures n >= 1
  {
    match d
    case Vec(items) => 1 + ItemNodes(items)
    case Map(cells) => 1 + ItemNodes(cells)
    case _ => 1
  }

  function ItemNodes(items: seq<ScDisplay>): nat {
    if items == [] then 0 else Nodes(items[0]) + ItemNodes(items[1..])
  }
}
