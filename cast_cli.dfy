/**
 * The argument validator of the `cast` command-line tool (cmd/cast/main.go):
 * two constant tables of minimum and maximum argument counts, the check run
 * before any command, and the content type chosen for `play`.
 */
module CastCli {

  /** Fewest arguments each known command takes. */
  const MinArgs: map<string, nat> := map["play" := 1, "pause" := 0, "stop" := 0, "quit" := 0, "volume" := 1]

  /** Most arguments each known command takes. */
  const MaxArgs: map<string, nat> := map["play" := 2, "pause" := 0, "stop" := 0, "quit" := 0, "volume" := 1]

  /** Content type used for `play` when none is given. */
  const DefaultContentType: string := "audio/mpeg"

  /** The media item `play` loads: url, stream type, content type. */
  datatype MediaItem = MediaItem(contentId: string, streamType: string, contentType: string)

  /**
   * Whether a command line is accepted. `inUnitRange` stands for
   * `validateFloat(args[0], 0.0, 1.0)` returning nil.
   * Accepted are: `play` with one or two arguments; `pause`, `stop` and `quit`
   * with none; `volume` with exactly one that passes the float check.
   */
  function CheckCommand(cmd: string, args: seq<string>, inUnitRange: string -> bool): (ok: bool)
    ensures ok ==> cmd in MinArgs && cmd in MaxArgs && MinArgs[cmd] <= |args| <= MaxArgs[cmd]
    ensures ok <==>
      (cmd == "play" && 1 <= |args| <= 2)
      || ((cmd == "pause" || cmd == "stop" || cmd == "quit") && |args| == 0)
      || (cmd == "volume" && |args| == 1 && inUnitRange(args[0]))
  {
    if cmd !in MinArgs then false
    else if |args| < MinArgs[cmd] then false
    else if |args| > MaxArgs[cmd] then false
    else if cmd == "volume" then inUnitRange(args[0])
    else true
  }

  /** Every rejection rule of the check, one per branch. */
  lemma RejectionRules(cmd: string, args: seq<string>, inUnitRange: string -> bool)
    ensures cmd !in MinArgs ==> !CheckCommand(cmd, args, inUnitRange)
    ensures cmd in MinArgs && |args| < MinArgs[cmd] ==> !CheckCommand(cmd, args, inUnitRange)
    ensures cmd in MinArgs && |args| > MaxArgs[cmd] ==> !CheckCommand(cmd, args, inUnitRange)
    ensures !CheckCommand("status", args, inUnitRange) && !CheckCommand("script", args, inUnitRange)
  {
  }

  /** The two tables cover the same commands, and each minimum is at most its maximum. */
  lemma TablesAgree()
    ensures MinArgs.Keys == MaxArgs.Keys
    ensures forall cmd :: cmd in MinArgs ==> MinArgs[cmd] <= MaxArgs[cmd]
  {
  }

  /** The media item for `play`: the url, buffered streaming, and the given or default content type. */
  function PlayItem(args: seq<string>): (item: MediaItem)
    requires |args| >= 1
    ensures item.contentId == args[0] && item.streamType == "BUFFERED"
    ensures |args| > 1 ==> item.contentType == args[1]
    ensures |args| <= 1 ==> item.contentType == DefaultContentType
  {
    var contentType := if |args| > 1 then args[1] else DefaultContentType;
    MediaItem(args[0], "BUFFERED", contentType)
  }

  /**
   * A `play` line the check accepts always has the url the command reads,
   * and every argument it carries ends up in the media item.
   */
  lemma AcceptedPlayUsesAllArguments(args: seq<string>, inUnitRange: string -> bool)
    requires CheckCommand("play", args, inUnitRange)
    ensures |args| >= 1
    ensures args == [PlayItem(args).contentId] || args == [PlayItem(args).contentId, PlayItem(args).contentType]
  {
  }
}
