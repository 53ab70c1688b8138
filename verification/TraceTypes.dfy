/** What a transaction trace is made of: the diagnostic stream and the call tree. */
module TraceTypes {
  import opened Wrappers
  import opened Bytes
  import opened Display

  /** One event of the stream, its topics and data already decoded. */
  datatype RawEvent =
    | Unversioned
    | Versioned(raised: bool, contractId: Option<Strkey>, topics: seq<Option<ScDisplay>>, data: Option<ScDisplay>)

  datatype TraceEvent = TraceEvent(contract: Option<Strkey>, topics: seq<Option<ScDisplay>>,
                                   data: Option<ScDisplay>, seq_: nat)

  datatype TraceCall = TraceCall(contract: Option<Strkey>, fn: string, args: seq<Option<ScDisplay>>,
                                 result: Option<ScDisplay>, events: seq<TraceEvent>, calls: seq<TraceCall>, seq_: nat)

  function Topic(topics: seq<Option<ScDisplay>>, i: nat): Option<ScDisplay> {
    if i < |topics| then topics[i] else None
  }

  function AddressIn(d: Option<ScDisplay>): Option<Strkey> {
    if d.Some? && d.value.Address? then Some(d.value.strkey) else None
  }

  // ---------- token movements ----------

  function Ascii(name: string): ByteString {
    seq(|name|, i requires 0 <= i < |name| => if name[i] < 128 as char then name[i] as int else 0)
  }

  /** Whether a shown text reads as an ASCII name; the platform decoder drops a leading byte order mark. */
  predicate Spells(shown: Shown, name: string) {
    match shown
    case Plain(text) => text == name
    case Utf8(data) => data == Ascii(name) || data == [0xEF, 0xBB, 0xBF] + Ascii(name)
  }

  predicate IsAmount(d: Option<ScDisplay>) {
    && d.Some? && d.value.Text? && d.value.kind.NumberText?
    && var f := d.value.kind.form;
    f.I128? || f.U128? || f.I64? || f.U64? || f.I32? || f.U32?
  }

  /** Whether tokenMove reads a balance movement out of an event. */
  predicate MovesTokens(event: TraceEvent) {
    var name := Topic(event.topics, 0);
    && name.Some? && name.value.Text? && IsAmount(event.data)
    && var first, second := AddressIn(Topic(event.topics, 1)), AddressIn(Topic(event.topics, 2));
    if Spells(name.value.shown, "transfer") then first.Some? || second.Some?
    else (Spells(name.value.shown, "mint") || Spells(name.value.shown, "burn") || Spells(name.value.shown, "clawback"))
         && first.Some?
  }
}
