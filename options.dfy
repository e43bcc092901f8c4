/** The post-processing in `parse_options`, over options already split by
    `getopt` and with the numeric arguments already converted by `atoi`. */
module Options {
  import opened Glyph

  /** One option as `getopt` delivers it: `-r` or `-c` with its integer,
      `-f` with its argument text, `-h`, an option missing its argument
      (`getopt` returns ':') or an unknown option ('?'). */
  datatype Opt = Rows(n: int) | Cols(n: int) | Fmt(arg: string) | Help | MissingArg(name: char) | Unknown(name: char)

  /** The result: the three settings, or the usage message and -1. */
  datatype Outcome = Parsed(nY: int, nX: int, fmt: Format) | Usage

  /** The options that make `parse_options` print usage and return -1. */
  predicate StopsParsing(o: Opt)
  {
    o.Help? || o.MissingArg? || o.Unknown?
  }

  /** `-f`: HEX when the argument starts with 'h', BIN for any other
      argument, including the empty one. */
  function FormatOf(arg: string): (fmt: Format)
    ensures fmt == Hex <==> |arg| > 0 && arg[0] == 'h'
  {
    if |arg| > 0 && arg[0] == 'h' then Hex else Bin
  }

  /** The argument of the last `-r` in opts, or dflt when there is none. */
  function LastRows(opts: seq<Opt>, dflt: int): int
    decreases |opts|
  {
    if opts == [] then dflt
    else if opts[|opts| - 1].Rows? then opts[|opts| - 1].n
    else LastRows(opts[..|opts| - 1], dflt)
  }

  /** The argument of the last `-c` in opts, or dflt when there is none. */
  function LastCols(opts: seq<Opt>, dflt: int): int
    decreases |opts|
  {
    if opts == [] then dflt
    else if opts[|opts| - 1].Cols? then opts[|opts| - 1].n
    else LastCols(opts[..|opts| - 1], dflt)
  }

  /** The format chosen by the last `-f` in opts, or dflt when there is none. */
  function LastFormat(opts: seq<Opt>, dflt: Format): Format
    decreases |opts|
  {
    if opts == [] then dflt
    else if opts[|opts| - 1].Fmt? then FormatOf(opts[|opts| - 1].arg)
    else LastFormat(opts[..|opts| - 1], dflt)
  }

  /** v brought into [lo, hi]. */
  function Clamp(v: int, lo: int, hi: int): (r: int)
    requires lo <= hi
    ensures lo <= r <= hi
    ensures lo <= v <= hi ==> r == v
    ensures v < lo ==> r == lo
    ensures v > hi ==> r == hi
  {
    if v < lo then lo else if v > hi then hi else v
  }

  /** The outcome in closed form: usage if any option stops parsing,
      otherwise the last value given for each setting, clamped. */
  ghost function Expected(opts: seq<Opt>, nY0: int, nX0: int, fmt0: Format): (res: Outcome)
    ensures res.Parsed? ==> 1 <= res.nY <= MAX_Y && 1 <= res.nX <= MAX_X
  {
    if exists i :: 0 <= i < |opts| && StopsParsing(opts[i]) then Usage
    else Parsed(Clamp(LastRows(opts, nY0), 1, MAX_Y), Clamp(LastCols(opts, nX0), 1, MAX_X), LastFormat(opts, fmt0))
  }

  /** `parse_options`: read the options in order, each `-r`, `-c`, `-f`
      overwriting its setting; stop at the first `-h`, missing argument or
      unknown option; then clamp both dimensions. nY0, nX0 and fmt0 are the
      values the caller's variables held before the call. */
  method ParseOptions(opts: seq<Opt>, nY0: int, nX0: int, fmt0: Format) returns (res: Outcome)
    ensures res == Expected(opts, nY0, nX0, fmt0)
    ensures res.Usage? <==> exists i :: 0 <= i < |opts| && StopsParsing(opts[i])
    ensures res.Parsed? ==> 1 <= res.nY <= MAX_Y && 1 <= res.nX <= MAX_X
    ensures res.Parsed? && 1 <= LastRows(opts, nY0) <= MAX_Y ==> res.nY == LastRows(opts, nY0)
    ensures res.Parsed? && 1 <= LastCols(opts, nX0) <= MAX_X ==> res.nX == LastCols(opts, nX0)
    ensures res.Parsed? ==> (res.fmt == Hex <==> LastFormat(opts, fmt0) == Hex)
  {
    var nY, nX, fmt := nY0, nX0, fmt0;
    var i := 0;
    while i < |opts|
      invariant 0 <= i <= |opts|
      invariant forall j :: 0 <= j < i ==> !StopsParsing(opts[j])
      invariant nY == LastRows(opts[..i], nY0)
      invariant nX == LastCols(opts[..i], nX0)
      invariant fmt == LastFormat(opts[..i], fmt0)
    {
      assert opts[..i + 1][..i] == opts[..i];
      match opts[i] {
        case Rows(n) => nY := n;
        case Cols(n) => nX := n;
        case Fmt(arg) =>
          if |arg| > 0 && arg[0] == 'h' {
            fmt := Hex;
          } else {
            fmt := Bin;
          }
        case _ =>
          return Usage;
      }
      i := i + 1;
    }
    assert opts[..i] == opts;
    if nX < 1 { nX := 1; }
    if nX > MAX_X { nX := MAX_X; }
    if nY < 1 { nY := 1; }
    if nY > MAX_Y { nY := MAX_Y; }
    res := Parsed(nY, nX, fmt);
  }
}
