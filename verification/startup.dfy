/** The binary's `main` before the server starts: which port and which base directory it uses. */
module Startup {
  import opened Wrappers
  import opened Types
  import opened Args

  /** The first `Port` option, or `DEFAULT_PORT` when there is none. */
  function SelectPort(options: seq<ProgramOption>): (port: u16)
    ensures (forall i :: 0 <= i < |options| ==> !options[i].Port?) ==> port == DEFAULT_PORT
    ensures forall i :: 0 <= i < |options| && options[i].Port? && (forall j :: 0 <= j < i ==> !options[j].Port?) ==>
      port == options[i].port
  {
    if options == [] then DEFAULT_PORT
    else if options[0].Port? then options[0].port
    else
      assert forall i :: 1 <= i < |options| ==> options[i] == options[1..][i - 1];
      SelectPort(options[1..])
  }

  /** The first `BaseDir` option, which `main` unwraps. */
  function SelectBaseDir(options: seq<ProgramOption>): (dir: Option<string>)
    ensures dir.None? <==> forall i :: 0 <= i < |options| ==> !options[i].BaseDir?
    ensures dir.Some? ==> exists i :: 0 <= i < |options| && options[i] == BaseDir(dir.value)
    ensures forall i :: 0 <= i < |options| && options[i].BaseDir? && (forall j :: 0 <= j < i ==> !options[j].BaseDir?) ==>
      dir == Some(options[i].path)
  {
    if options == [] then None
    else if options[0].BaseDir? then Some(options[0].path)
    else
      assert forall i :: 1 <= i < |options| ==> options[i] == options[1..][i - 1];
      SelectBaseDir(options[1..])
  }

  /**
   * After a successful parse the server serves the directory named by the
   * last argument, and listens on the port of the first argument when there
   * are two or more arguments (each of them a `--port=N`), or on 65421.
   */
  lemma StartupChoice(args: seq<string>, isDir: string -> bool)
    requires ProcessArgs(Binary, args, isDir).Success?
    ensures var options := ProcessArgs(Binary, args, isDir).value;
      && SelectBaseDir(options) == Some(Last(args))
      && (|args| == 1 ==> SelectPort(options) == DEFAULT_PORT)
      && (|args| > 1 ==> SelectPort(options) == ParseU16(args[0][|PORT_PREFIX|..]).value)
  {
    var options := ProcessArgs(Binary, args, isDir).value;
    assert options[0] == BaseDir(Last(args));
    assert options[1..] == ParseAll(Binary, args[..|args| - 1]).value;
    if |args| > 1 {
      assert args[..|args| - 1][0] == args[0];
      assert options[1] == ParseOption(Binary, args[0]).value;
    } else {
      assert |options| == 1;
    }
  }
}
