/** The launcher's event bridge (src/app/gui.rs, `handle_stdout`,
    `handle_stderr`, `handle_progress`): how output bytes and progress
    updates of a launch become the arguments of the page's `on_output` and
    `on_progress` callbacks. */
module Events {
  import opened Base
  import Utf8

  /** One progress event of the launch procedure. The counts are 64-bit. */
  datatype ProgressUpdate = SetMax(max: u64) | SetProgress(progress: u64) | SetLabel(text: string)

  datatype Stream = Stdout | Stderr

  /** The page callback an event goes to. */
  datatype Sink = OnOutput | OnProgress

  /** The second argument of a callback call. */
  datatype Arg = IntArg(i: i32) | TextArg(t: string)

  /** One callback call: which callback, a tag, and a value. */
  datatype Call = Call(sink: Sink, tag: string, arg: Arg)

  /** What a handler does: call a callback, or panic before calling it. */
  datatype Handled = Calls(call: Call) | Panics

  /** Rust's `as i32` on a 64-bit count: keep the low 32 bits and read them
      as two's complement. */
  function WrapI32(n: u64): (r: i32)
    ensures n < 0x8000_0000 ==> r == n
    ensures (r - n) % 0x1_0000_0000 == 0
  {
    var low := n % 0x1_0000_0000;
    if low < 0x8000_0000 then low else low - 0x1_0000_0000
  }

  function StreamTag(stream: Stream): string {
    match stream
    case Stdout => "stdout"
    case Stderr => "stderr"
  }

  /** `handle_stdout` / `handle_stderr`: the bytes are decoded as UTF-8 and
      passed, tagged with their stream, to `on_output`; `unwrap` on a failed
      decode panics. */
  function HandleOutput(stream: Stream, data: seq<byte>): (h: Handled)
    ensures h.Panics? <==> Utf8.Decode(data).None?
    ensures h.Calls? ==> h.call.sink == OnOutput && h.call.tag == StreamTag(stream)
  {
    match Utf8.Decode(data)
    case None => Panics
    case Some(text) => Calls(Call(OnOutput, StreamTag(stream), TextArg(text)))
  }

  /** `handle_progress`: each update goes to `on_progress` under its own tag,
      counts cast to `i32`. */
  function HandleProgress(update: ProgressUpdate): (c: Call)
    ensures c.sink == OnProgress
    ensures update.SetMax? ==> c.tag == "max" && c.arg == IntArg(WrapI32(update.max))
    ensures update.SetProgress? ==> c.tag == "progress" && c.arg == IntArg(WrapI32(update.progress))
    ensures update.SetLabel? ==> c.tag == "label" && c.arg == TextArg(update.text)
  {
    match update
    case SetMax(max) => Call(OnProgress, "max", IntArg(WrapI32(max)))
    case SetProgress(progress) => Call(OnProgress, "progress", IntArg(WrapI32(progress)))
    case SetLabel(text) => Call(OnProgress, "label", TextArg(text))
  }

  /** How the page reads a progress call back (the inverse of
      `HandleProgress` on counts that fit in an `i32`). */
  function ReadProgress(c: Call): Option<ProgressUpdate> {
    if c.sink != OnProgress then None
    else
      match c.arg
      case IntArg(i) =>
        if i < 0 then None
        else if c.tag == "max" then Some(SetMax(i))
        else if c.tag == "progress" then Some(SetProgress(i))
        else None
      case TextArg(t) => if c.tag == "label" then Some(SetLabel(t)) else None
  }

  /** Counts below 2^31 are delivered exactly, so the page recovers the
      update. */
  lemma ProgressRoundTrip(update: ProgressUpdate)
    requires update.SetMax? ==> update.max < 0x8000_0000
    requires update.SetProgress? ==> update.progress < 0x8000_0000
    ensures ReadProgress(HandleProgress(update)) == Some(update)
  {
  }

  /** Distinct updates with counts below 2^31 produce distinct calls. */
  lemma ProgressInjective(a: ProgressUpdate, b: ProgressUpdate)
    requires a.SetMax? ==> a.max < 0x8000_0000
    requires a.SetProgress? ==> a.progress < 0x8000_0000
    requires b.SetMax? ==> b.max < 0x8000_0000
    requires b.SetProgress? ==> b.progress < 0x8000_0000
    requires HandleProgress(a) == HandleProgress(b)
    ensures a == b
  {
    ProgressRoundTrip(a);
    ProgressRoundTrip(b);
  }

  /** Larger counts wrap: 2^31 arrives as a negative number and 2^32 as 0. */
  lemma ProgressCountsWrap()
    ensures HandleProgress(SetMax(0x8000_0000)).arg == IntArg(-0x8000_0000)
    ensures HandleProgress(SetProgress(0x1_0000_0000)).arg == IntArg(0)
  {
  }

  /** Text written by the game arrives unchanged, tagged with its stream. */
  lemma OutputOfText(stream: Stream, text: string)
    ensures HandleOutput(stream, Utf8.Encode(text)) == Calls(Call(OnOutput, StreamTag(stream), TextArg(text)))
  {
    Utf8.DecodeOfEncode(text);
  }

  /** A handler panics exactly on bytes that encode no text. */
  lemma OutputPanicsIffNotText(stream: Stream, data: seq<byte>)
    ensures HandleOutput(stream, data).Panics? <==> forall t :: Utf8.Encode(t) != data
  {
    if HandleOutput(stream, data).Calls? {
      Utf8.EncodeOfDecode(data);
    } else {
      forall t ensures Utf8.Encode(t) != data {
        Utf8.DecodeOfEncode(t);
      }
    }
  }

  /** The two output streams are told apart only by the tag. */
  lemma OutputStreamsDifferOnlyInTag(data: seq<byte>)
    ensures HandleOutput(Stdout, data).Panics? == HandleOutput(Stderr, data).Panics?
    ensures HandleOutput(Stdout, data).Calls? ==>
      && HandleOutput(Stdout, data).call.arg == HandleOutput(Stderr, data).call.arg
      && HandleOutput(Stdout, data).call.tag == "stdout"
      && HandleOutput(Stderr, data).call.tag == "stderr"
  {
  }
}
