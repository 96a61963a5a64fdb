/** vimpy/vimpy_cli.py: finding the editor's socket for a folder, the commands
    the CLI registers, and one iteration of its read-dispatch-print loop. The
    directory listing, the folder hash and the input line are parameters; the
    editor connection is reduced to the list of commands sent to it. */
module VimpyCli {
  import opened Wrappers
  import opened Common
  import opened Strings
  import opened CmdMgr
  import VimHelper

  // ---------------------------------------------------------------------------
  // Socket locator

  /** What a socket file name must contain to belong to the folder with this hash. */
  function SocketPattern(folderHash: string): string {
    NvimSocketFileNamePrefix + "-" + folderHash
  }

  /** `f"{NVIM_SOCKET_FOLDER}/{file_name}"`; the folder already ends in "/". */
  function SocketPath(fileName: string): string {
    NvimSocketFolder + "/" + fileName
  }

  /** Index of the last entry of `listing` that contains `pat`, if any. */
  function LastMatch(listing: seq<string>, pat: string): (r: Option<nat>)
    ensures r.None? <==> forall j :: 0 <= j < |listing| ==> !Contains(listing[j], pat)
    ensures r.Some? ==> r.value < |listing| && Contains(listing[r.value], pat)
    ensures r.Some? ==> forall j :: r.value < j < |listing| ==> !Contains(listing[j], pat)
    decreases |listing|
  {
    if |listing| == 0 then None
    else if Contains(listing[|listing| - 1], pat) then Some(|listing| - 1)
    else LastMatch(listing[..|listing| - 1], pat)
  }

  /** The outcome of the socket scan: the path of the last matching entry, or
      the unbound-local failure when nothing matched. */
  function Locate(listing: seq<string>, folderHash: string): (r: Result<string, Exception>)
    ensures r.Failure? <==> forall j :: 0 <= j < |listing| ==> !Contains(listing[j], SocketPattern(folderHash))
    ensures r.Failure? ==> r.error == UnboundLocalError
    ensures r.Success? ==> exists k :: 0 <= k < |listing| && r.value == SocketPath(listing[k])
                                      && Contains(listing[k], SocketPattern(folderHash))
                                      && forall j :: k < j < |listing| ==> !Contains(listing[j], SocketPattern(folderHash))
  {
    match LastMatch(listing, SocketPattern(folderHash))
    case None => Failure(UnboundLocalError)
    case Some(k) => Success(SocketPath(listing[k]))
  }

  /** `_get_socket_for_folder` over a given listing of the socket folder: every
      matching entry overwrites `socket_path`, which is never bound when none
      matches (the `is None` guard after the loop cannot fire). */
  method GetSocketForFolder(listing: seq<string>, folderHash: string) returns (r: Result<string, Exception>)
    ensures r == Locate(listing, folderHash)
  {
    var pattern := SocketPattern(folderHash);
    var socketPath: Option<string> := None;
    for i := 0 to |listing|
      invariant socketPath == match LastMatch(listing[..i], pattern)
                              case None => None
                              case Some(k) => Some(SocketPath(listing[k]))
    {
      assert listing[..i + 1][..i] == listing[..i];
      if Contains(listing[i], pattern) {
        socketPath := Some(SocketPath(listing[i]));
      }
    }
    assert listing[..|listing|] == listing;
    match socketPath
    case None => r := Failure(UnboundLocalError);
    case Some(path) => r := Success(path);
  }

  /** The socket the editor launcher creates for a folder is named
      `nvim-socket-<hash>-<suffix>`; when no later entry of the listing
      matches, the scan returns exactly that socket. */
  lemma LaunchedSocketFound(listing: seq<string>, folderHash: string, suffix: string, k: nat)
    requires k < |listing| && listing[k] == SocketPattern(folderHash) + "-" + suffix
    requires forall j :: k < j < |listing| ==> !Contains(listing[j], SocketPattern(folderHash))
    ensures Locate(listing, folderHash) == Success("/tmp//" + SocketPattern(folderHash) + "-" + suffix)
  {
    ContainsPrefix(SocketPattern(folderHash), "-" + suffix);
    assert listing[k] == SocketPattern(folderHash) + ("-" + suffix);
    assert Locate(listing, folderHash).Success?;
    var r := Locate(listing, folderHash);
    var k' :| 0 <= k' < |listing| && r.value == SocketPath(listing[k'])
              && Contains(listing[k'], SocketPattern(folderHash))
              && forall j :: k' < j < |listing| ==> !Contains(listing[j], SocketPattern(folderHash));
    assert k' == k;
    assert NvimSocketFolder + "/" == "/tmp//";
    assert r.value == "/tmp//" + (SocketPattern(folderHash) + "-" + suffix)
                   == "/tmp//" + SocketPattern(folderHash) + "-" + suffix;
  }

  // ---------------------------------------------------------------------------
  // The registered commands

  const GetWindowsHandler: Handler := Handler("VimpyCli._get_curr_windows", 0)
  const GetCurrBufferHandler: Handler := Handler("VimpyCli._get_curr_buffer", 0)
  const SearchHandler: Handler := Handler("VimpyCli._search", 1)

  /** Names `_add_commands` registers, in order. */
  const AddedNames: seq<string> := ["get_windows", "get_curr_buffer", "search"]

  /** The entries `_add_commands` registers (no description given). */
  const AddedTable: map<string, Entry> :=
    map["get_windows" := Entry(GetWindowsHandler, ""),
        "get_curr_buffer" := Entry(GetCurrBufferHandler, ""),
        "search" := Entry(SearchHandler, "")]

  /** Solver aid: the three single appends of `_add_commands` make `AddedNames`. */
  lemma AppendAddedNames(names: seq<string>)
    ensures names + ["get_windows"] + ["get_curr_buffer"] + ["search"] == names + AddedNames
  {
  }

  /** Solver aid: the three single stores of `_add_commands` make `AddedTable`. */
  lemma AppendAddedEntries(table: map<string, Entry>)
    ensures table["get_windows" := Entry(GetWindowsHandler, "")]
                 ["get_curr_buffer" := Entry(GetCurrBufferHandler, "")]
                 ["search" := Entry(SearchHandler, "")] == table + AddedTable
  {
  }

  /** The entries of the first `n` names `_add_commands` registers. */
  function AddedPrefixTable(n: nat): map<string, Entry>
    requires n <= |AddedNames|
  {
    map k | k in AddedNames[..n] && k in AddedTable :: AddedTable[k]
  }

  /** Solver aid: the prefixes of `AddedTable` written out. */
  lemma AddedPrefixTables()
    ensures AddedPrefixTable(0) == map[]
    ensures AddedPrefixTable(1) == map["get_windows" := Entry(GetWindowsHandler, "")]
    ensures AddedPrefixTable(2) == map["get_windows" := Entry(GetWindowsHandler, ""),
                                       "get_curr_buffer" := Entry(GetCurrBufferHandler, "")]
  {
    assert AddedNames[..0] == [];
    assert AddedNames[..1] == ["get_windows"];
    assert AddedNames[..2] == ["get_windows", "get_curr_buffer"];
  }

  /** Solver aid: one and two of the single stores and appends of
      `_add_commands` make the corresponding prefixes. */
  lemma AddedPrefixSteps(table: map<string, Entry>, names: seq<string>)
    ensures table["get_windows" := Entry(GetWindowsHandler, "")] == table + AddedPrefixTable(1)
    ensures names + ["get_windows"] == names + AddedNames[..1]
    ensures table["get_windows" := Entry(GetWindowsHandler, "")]
                 ["get_curr_buffer" := Entry(GetCurrBufferHandler, "")] == table + AddedPrefixTable(2)
    ensures names + ["get_windows"] + ["get_curr_buffer"] == names + AddedNames[..2]
  {
    AddedPrefixTables();
    assert AddedNames[..1] == ["get_windows"];
    assert AddedNames[..2] == ["get_windows", "get_curr_buffer"];
  }

  /** Solver aid: the keys of `AddedTable` are exactly the three added names. */
  lemma AddedKeysDisjoint(table: map<string, Entry>)
    requires "get_windows" !in table && "get_curr_buffer" !in table && "search" !in table
    ensures AddedTable.Keys !! table.Keys
  {
    assert AddedTable.Keys == {"get_windows", "get_curr_buffer", "search"};
  }

  /** Solver aid: no registered command name contains a space. */
  lemma CommandNamesSpaceFree()
    ensures ' ' !in "help" && ' ' !in "get_windows" && ' ' !in "get_curr_buffer" && ' ' !in "search"
  {
  }

  /** The CLI's full command table and its key order. */
  const CliCommandNames: seq<string> := [HelpName] + AddedNames
  const CliTable: map<string, Entry> := map[HelpName := HelpEntry] + AddedTable

  // ---------------------------------------------------------------------------
  // Tokenizing an input line

  /** One input line cut into the command name and its arguments. */
  datatype Frame = Frame(cmd: string, args: seq<string>)

  /** `inp.split(" ")[0]` and `inp.split(" ")[1:]`. */
  function Tokenize(line: string): (frame: Frame)
    ensures Join([frame.cmd] + frame.args) == line
    ensures ' ' !in frame.cmd && forall k :: 0 <= k < |frame.args| ==> ' ' !in frame.args[k]
    ensures line == "" ==> frame == Frame("", [])
  {
    var parts := Split(line);
    JoinSplit(line);
    assert [parts[0]] + parts[1..] == parts;
    Frame(parts[0], parts[1..])
  }

  /** Every space-free command and argument list is what some line tokenizes to. */
  lemma TokenizeJoin(cmd: string, args: seq<string>)
    requires ' ' !in cmd && forall k :: 0 <= k < |args| ==> ' ' !in args[k]
    ensures Tokenize(Join([cmd] + args)) == Frame(cmd, args)
  {
    var parts := [cmd] + args;
    assert forall k :: 0 <= k < |parts| ==> ' ' !in parts[k] by {
      forall k | 0 <= k < |parts| ensures ' ' !in parts[k] {
        if k > 0 { assert parts[k] == args[k - 1]; }
      }
    }
    SplitJoin(parts);
    assert parts[1..] == args;
  }

  // ---------------------------------------------------------------------------
  // The search command

  /** `_get_curr_folder`: a fixed folder name. */
  function CurrFolder(): string {
    "app"
  }

  /** The editor command `_search` builds from its arguments: the first is the
      search term (IndexError when there is none), the second the folder,
      replaced by `_get_curr_folder()` when missing or empty. */
  function SearchCommand(searchArgs: seq<string>): (r: Result<string, Exception>)
    ensures r.Failure? <==> |searchArgs| == 0
    ensures r.Failure? ==> r.error == IndexError
    ensures r.Success? ==> r.value == "!Ack " + searchArgs[0] + " "
                                       + (if |searchArgs| >= 2 && searchArgs[1] != "" then searchArgs[1] else "app")
  {
    if |searchArgs| == 0 then Failure(IndexError)
    else
      var searchFolder: Option<string> := if |searchArgs| >= 2 then Some(searchArgs[1]) else None;
      var folder := if searchFolder.None? || searchFolder.value == "" then CurrFolder() else searchFolder.value;
      Success(VimHelper.SearchInFolder(searchArgs[0], Some(folder)))
  }

  // ---------------------------------------------------------------------------
  // One iteration of the input loop

  /** One printed line: a value's text, or a caught exception. */
  datatype Line = Text(text: string) | Raised(error: Exception)

  /** What handling one input line prints and which commands it sends to the editor. */
  datatype Reaction = Reaction(printed: seq<Line>, sent: seq<string>)

  /** `_run_command`: print the command, then hand it to the editor. When the
      editor accepts it, `_search` returns None and the loop prints that; when
      the editor raises (`editorFails`), the loop prints the exception instead,
      after the command has already been printed and sent. */
  function RunCommand(command: string, editorFails: bool): Reaction {
    Reaction([Text(command), if editorFails then Raised(EditorError) else Text("None")], [command])
  }

  /** The reaction to a line, read off the CLI's command names: unknown names
      are not registered, `help`, `get_windows` and `get_curr_buffer` take no
      argument and so raise TypeError, and `search` runs its command in the
      editor, whose outcome is `editorFails`. */
  function Respond(line: string, editorFails: bool): Reaction {
    var frame := Tokenize(line);
    if frame.cmd !in CliCommandNames then Reaction([Raised(CommandNotRegistered)], [])
    else if frame.cmd != "search" then Reaction([Raised(TypeError)], [])
    else
      match SearchCommand(frame.args)
      case Failure(e) => Reaction([Raised(e)], [])
      case Success(command) => RunCommand(command, editorFails)
  }

  /** A failure before the editor is reached is caught and printed alone and
      sends nothing; otherwise the line was `search`, it sends exactly one Ack
      search and prints it, followed by None or by the editor's exception. */
  lemma RespondFailsOrSearches(line: string, editorFails: bool)
    ensures Respond(line, editorFails).sent == [] <==> exists e :: Respond(line, editorFails).printed == [Raised(e)]
    ensures Respond(line, editorFails).sent != [] ==>
      Tokenize(line).cmd == "search" && |Respond(line, editorFails).sent| == 1
      && Respond(line, editorFails).printed
         == [Text(Respond(line, editorFails).sent[0]), if editorFails then Raised(EditorError) else Text("None")]
      && Respond(line, editorFails).sent[0][..5] == "!Ack "
  {
  }

  /** An empty line names no registered command. */
  lemma EmptyLineNotRegistered(editorFails: bool)
    ensures Respond("", editorFails) == Reaction([Raised(CommandNotRegistered)], [])
  {
  }

  /** `help`, `get_windows` and `get_curr_buffer` are stored with handlers that
      take no argument, so reaching them through `exec` always raises TypeError,
      whatever the arguments. */
  lemma NoArgumentCommandsRaise(cmd: string, args: seq<string>, editorFails: bool)
    requires cmd in {"help", "get_windows", "get_curr_buffer"}
    requires forall k :: 0 <= k < |args| ==> ' ' !in args[k]
    ensures Respond(Join([cmd] + args), editorFails) == Reaction([Raised(TypeError)], [])
  {
    CommandNamesSpaceFree();
    TokenizeJoin(cmd, args);
    assert cmd in CliCommandNames && cmd != "search";
  }

  /** `search` with no term raises IndexError, reported without sending anything. */
  lemma BareSearchRaises(editorFails: bool)
    ensures Respond("search", editorFails) == Reaction([Raised(IndexError)], [])
  {
    TokenizeJoin("search", []);
    assert Join(["search"]) == "search";
  }

  /** `search <term> <folder>` prints and sends `!Ack <term> <folder>` to the
      editor, then prints None, or the editor's exception when it raises. */
  lemma SearchLine(term: string, folder: string, editorFails: bool)
    requires ' ' !in term && ' ' !in folder && folder != ""
    ensures Respond("search " + term + " " + folder, editorFails)
         == Reaction([Text("!Ack " + term + " " + folder),
                      if editorFails then Raised(EditorError) else Text("None")],
                     ["!Ack " + term + " " + folder])
  {
    TokenizeJoin("search", [term, folder]);
    assert Join(["search", term, folder]) == "search " + term + " " + folder by {
      assert Join(["search", term, folder][1..]) == Join([term, folder]);
      assert ["search", term, folder][1..] == [term, folder];
      assert [term, folder][1..] == [folder];
    }
    assert ["search"] + [term, folder] == ["search", term, folder];
  }

  /** `search <term>` falls back to the folder "app". */
  lemma SearchWithoutFolder(term: string, editorFails: bool)
    requires ' ' !in term
    ensures Respond("search " + term, editorFails)
         == Reaction([Text("!Ack " + term + " app"),
                      if editorFails then Raised(EditorError) else Text("None")],
                     ["!Ack " + term + " app"])
  {
    TokenizeJoin("search", [term]);
    assert Join(["search", term]) == "search " + term by {
      assert ["search", term][1..] == [term];
      assert "search" + " " == "search ";
    }
    assert ["search"] + [term] == ["search", term];
    assert "!Ack " + term + " " + "app" == "!Ack " + term + " app";
  }

  /** The line "search foo ./src" sends "!Ack foo ./src". */
  lemma SearchFooInSrc(editorFails: bool)
    ensures Respond("search foo ./src", editorFails).sent == ["!Ack foo ./src"]
  {
    var term, folder := "foo", "./src";
    assert "search foo ./src" == "search " + term + " " + folder;
    assert "!Ack " + term + " " + folder == "!Ack foo ./src";
    assert Respond("search " + term + " " + folder, editorFails).sent == ["!Ack " + term + " " + folder] by {
      SearchLine(term, folder, editorFails);
    }
  }

  // ---------------------------------------------------------------------------
  // The CLI object

  class VimpyCli {
    const currFolder: string
    const currFolderHash: string
    const socket: string
    const cmdMgr: CommandManager

    /** The registry holds exactly the CLI's commands, in registration order. */
    ghost predicate Valid()
      reads this, cmdMgr
    {
      cmdMgr.Valid() && cmdMgr.commands == CliTable && cmdMgr.order == CliCommandNames
    }

    /** Sets the fields and registers the CLI's commands on a fresh registry. */
    constructor (currFolder: string, currFolderHash: string, socket: string)
      ensures Valid() && fresh(cmdMgr)
      ensures this.currFolder == currFolder && this.currFolderHash == currFolderHash && this.socket == socket
    {
      this.currFolder := currFolder;
      this.currFolderHash := currFolderHash;
      this.socket := socket;
      var mgr := new CommandManager();
      this.cmdMgr := mgr;
      new;
      var added := AddCommands();
    }

    /** `_add_commands`: registers get_windows, get_curr_buffer and search in
        that order, stopping at the first name already present. */
    method AddCommands() returns (r: Outcome<Exception>)
      requires cmdMgr.Valid()
      modifies cmdMgr
      ensures cmdMgr.Valid()
      ensures r.Pass? <==> AddedTable.Keys !! old(cmdMgr.commands).Keys
      ensures r.Pass? ==> (cmdMgr.commands == old(cmdMgr.commands) + AddedTable
                           && cmdMgr.order == old(cmdMgr.order) + AddedNames)
      ensures r.Fail? ==> r.error == CommandAlreadyRegistered
      ensures r.Fail? ==>
        exists n :: 0 <= n < |AddedNames| && AddedNames[n] in old(cmdMgr.commands)
                    && (forall m :: 0 <= m < n ==> AddedNames[m] !in old(cmdMgr.commands))
                    && cmdMgr.commands == old(cmdMgr.commands) + AddedPrefixTable(n)
                    && cmdMgr.order == old(cmdMgr.order) + AddedNames[..n]
      ensures forall k :: k in old(cmdMgr.commands) ==> k in cmdMgr.commands && cmdMgr.commands[k] == old(cmdMgr.commands)[k]
    {
      AddedPrefixTables();
      ghost var table, names := cmdMgr.commands, cmdMgr.order;
      r := cmdMgr.Add("get_windows", GetWindowsHandler);
      if r.Fail? {
        assert "get_windows" in AddedTable.Keys * table.Keys;
        assert AddedNames[0] in table && cmdMgr.commands == table + AddedPrefixTable(0)
               && cmdMgr.order == names + AddedNames[..0];
        return;
      }
      ghost var table1 := cmdMgr.commands;
      assert table1 == table["get_windows" := Entry(GetWindowsHandler, "")];
      r := cmdMgr.Add("get_curr_buffer", GetCurrBufferHandler);
      if r.Fail? {
        assert "get_curr_buffer" in AddedTable.Keys * table.Keys;
        assert AddedNames[1] in table && AddedNames[0] !in table;
        AddedPrefixSteps(table, names);
        return;
      }
      ghost var table2 := cmdMgr.commands;
      assert table2 == table1["get_curr_buffer" := Entry(GetCurrBufferHandler, "")];
      r := cmdMgr.Add("search", SearchHandler);
      if r.Fail? {
        assert "search" in AddedTable.Keys * table.Keys;
        assert AddedNames[2] in table && AddedNames[1] !in table && AddedNames[0] !in table;
        assert cmdMgr.commands == table2 && cmdMgr.order == names + ["get_windows"] + ["get_curr_buffer"];
        AddedPrefixSteps(table, names);
      } else {
        assert "get_windows" !in table && "get_curr_buffer" !in table && "search" !in table;
        AddedKeysDisjoint(table);
        AppendAddedEntries(table);
        AppendAddedNames(names);
      }
    }

    /** One iteration of `_start_inp_loop` on the line `line`: tokenize, exec,
        then print the output or the caught exception; `editorFails` says
        whether the editor raises on the command it is sent. It reads the registry
        and never changes it, so the next line meets the same table. */
    method HandleLine(line: string, editorFails: bool) returns (printed: seq<Line>, sent: seq<string>)
      requires Valid()
      ensures Reaction(printed, sent) == Respond(line, editorFails)
    {
      var frame := Tokenize(line);
      var called := cmdMgr.Exec(frame.cmd, frame.args);
      match called
      case Failure(e) =>
        printed, sent := [Raised(e)], [];
      case Success(call) =>
        if call.func == SearchHandler {
          var searched := SearchCommand(call.args);
          match searched
          case Failure(e) =>
            printed, sent := [Raised(e)], [];
          case Success(command) =>
            // `_run_command` prints the command, then sends it to the editor
            printed, sent := [Text(command)], [command];
            if editorFails {
              printed := printed + [Raised(EditorError)];
            } else {
              // `_search` returns None, which the loop prints
              printed := printed + [Text("None")];
            }
        } else {
          assert false;
        }
    }
  }

  /** `VimpyCli.__init__`: locate the socket first (a failed scan aborts start-up),
      then build the registry with the CLI's commands. */
  method Create(currFolder: string, currFolderHash: string, listing: seq<string>)
    returns (r: Result<VimpyCli, Exception>)
    ensures r.Failure? <==> Locate(listing, currFolderHash).Failure?
    ensures r.Failure? ==> r.error == UnboundLocalError
    ensures r.Success? ==> (fresh(r.value) && fresh(r.value.cmdMgr) && r.value.Valid()
                            && r.value.socket == Locate(listing, currFolderHash).value
                            && r.value.currFolder == currFolder && r.value.currFolderHash == currFolderHash)
  {
    var located := GetSocketForFolder(listing, currFolderHash);
    match located
    case Failure(e) =>
      r := Failure(e);
    case Success(socket) =>
      var cli := new VimpyCli(currFolder, currFolderHash, socket);
      r := Success(cli);
  }
}
