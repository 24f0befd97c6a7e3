/** The per-character decision of the stdin keyboard handler. */
module KeyCommands {

  /** What a key asks for: the help text, a pause/play toggle, quitting, or nothing. */
  datatype Command = Help | TogglePlayback | Quit | NoCommand

  /** g_ascii_tolower: maps 'A'..'Z' to 'a'..'z' and leaves every other character alone. */
  function AsciiLower(c: char): (l: char)
    ensures 'A' <= c <= 'Z' ==> 'a' <= l <= 'z' && l as int - c as int == 'a' as int - 'A' as int
    ensures !('A' <= c <= 'Z') ==> l == c
  {
    if 'A' <= c <= 'Z' then (c as int - 'A' as int + 'a' as int) as char else c
  }

  /**
   * The command of one character read from stdin: the character is
   * lower-cased (a NUL stays NUL), then 'h' asks for help, 'p' toggles
   * playback, 'q' quits, and everything else is ignored.
   */
  function KeyCommand(input: char): (cmd: Command)
    ensures cmd == Help <==> input == 'h' || input == 'H'
    ensures cmd == TogglePlayback <==> input == 'p' || input == 'P'
    ensures cmd == Quit <==> input == 'q' || input == 'Q'
  {
    var key := if input != '\0' then AsciiLower(input) else '\0';
    match key
    case 'h' => Help
    case 'p' => TogglePlayback
    case 'q' => Quit
    case _ => NoCommand
  }
}
