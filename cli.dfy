/**
 * The date arguments both importers take: no argument prints the usage
 * line, one argument imports that single hour, two or more arguments give
 * the start and the end of the range (further arguments are ignored).
 * Both dates are RFC 3339; the parser is given as `parse`.
 */
module Cli {
  import opened Wrappers
  import opened Clock

  /** Why the command line was refused; each ends the program with status 1. */
  datatype ArgError = Usage | InvalidStartDate(arg: string) | InvalidEndDate(arg: string)

  datatype Range = Range(start: Time, end: Time)

  function ParseRange(args: seq<string>, parse: string -> Option<Time>): (r: Result<Range, ArgError>)
    ensures |args| == 0 <==> r == Err(Usage)
    ensures r.Ok? <==> |args| > 0 && parse(args[0]).Some? && (|args| == 1 || parse(args[1]).Some?)
    ensures r.Ok? ==> r.value.start == parse(args[0]).value
    ensures r.Ok? ==> r.value.end == if |args| == 1 then r.value.start else parse(args[1]).value
    ensures r.Err? && r.error.InvalidStartDate? ==> |args| > 0 && r.error.arg == args[0] && parse(args[0]).None?
    ensures r.Err? && r.error.InvalidEndDate? ==>
      |args| > 1 && r.error.arg == args[1] && parse(args[0]).Some? && parse(args[1]).None?
  {
    if |args| == 0 then Err(Usage)
    else if |args| == 1 then
      match parse(args[0])
      case None => Err(InvalidStartDate(args[0]))
      case Some(start) => Ok(Range(start, start))
    else
      match parse(args[0])
      case None => Err(InvalidStartDate(args[0]))
      case Some(start) =>
        match parse(args[1])
        case None => Err(InvalidEndDate(args[1]))
        case Some(end) => Ok(Range(start, end))
  }

  /** Arguments after the second are never looked at. */
  lemma ExtraArgumentsIgnored(args: seq<string>, extra: seq<string>, parse: string -> Option<Time>)
    requires |args| >= 2
    ensures ParseRange(args + extra, parse) == ParseRange(args, parse)
  {
    assert (args + extra)[0] == args[0] && (args + extra)[1] == args[1];
  }

  /** A single valid date imports exactly the hour it names. */
  lemma SingleDateIsOneHour(arg: string, parse: string -> Option<Time>)
    requires parse(arg).Some?
    ensures ParseRange([arg], parse).Ok?
    ensures Hours(ParseRange([arg], parse).value.start, ParseRange([arg], parse).value.end) == [parse(arg).value]
  {
    SingleHour(parse(arg).value);
  }
}
