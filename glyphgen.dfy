/** `main`: options, then the editor loop over the keys, then the printed
    glyph. */
module Glyphgen {
  import opened Glyph
  import opened Options
  import opened Editing
  import opened Encoder
  import opened Numerals

  /** How a run ends: with the usage message and no editor, with the editor
      still waiting for a key after the given ones, or with the glyph
      printed after `q`. */
  datatype Report = UsageShown | AwaitingKey | Printed(lines: seq<string>)

  /** The whole program as a function of its options and keys. */
  ghost function Session(opts: seq<Opt>, keys: seq<Key>): Report
  {
    match Expected(opts, N_Y, N_X, Bin)
    case Usage => UsageShown
    case Parsed(nY, nX, fmt) =>
      var t := Replay(Initial(nY, nX), keys);
      if t.exit then Printed(Render(t.grid, nY, nX, fmt)) else AwaitingKey
  }

  /** `main` with the defaults 8 rows, 5 columns and BIN: on a usage
      outcome it returns before the editor starts; otherwise it runs the
      editor and, once `q` ends the loop, prints the glyph. */
  method Glyphgen(opts: seq<Opt>, keys: seq<Key>) returns (report: Report)
    ensures report == Session(opts, keys)
    ensures report.UsageShown? <==> exists i :: 0 <= i < |opts| && StopsParsing(opts[i])
    ensures report.Printed? <==> !report.UsageShown? && exists i :: 0 <= i < |keys| && Decode(keys[i]) == Quit
  {
    var parsed := ParseOptions(opts, N_Y, N_X, Bin);
    if parsed.Usage? {
      return UsageShown;
    }
    var editor := new Editor(parsed.nY, parsed.nX);
    editor.Run(keys);
    ReplayExits(Initial(parsed.nY, parsed.nX), keys);
    if !editor.exitCond {
      return AwaitingKey;
    }
    var lines := OutputGlyph(editor.glyph, parsed.nY, parsed.nX, parsed.fmt);
    report := Printed(lines);
  }

}
