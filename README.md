# vimpy core, modelled in Dafny

vimpy is a small command-line controller for a running Neovim instance. At
start-up it works out which editor socket belongs to the current folder. It
then reads command lines in a loop and dispatches each one through a command
registry. This project models the three pieces of that program with real
logic:

- **The command registry** (`CmdMgr`, vimpy/cmd_mgr.py). A `CommandManager`
  class holds the Python dictionary as a `map<string, Entry>` plus the
  dictionary's key order (insertion order) as a `seq<string>`. It is seeded
  with `help`. `Add` rejects a name already present with
  `CommandAlreadyRegistered`. `Show` and `Exec` reject an absent name with
  `CommandNotRegistered`. `All` lists the keys in insertion order. Handlers are
  values of an abstract `Handler` datatype: a qualified name and the number of
  positional arguments the callable accepts. `Exec` always passes exactly one
  argument, so a handler that takes none raises `TypeError`. Otherwise it
  returns the `Call` of that handler on the arguments.
- **The CLI** (`VimpyCli`, vimpy/vimpy_cli.py).
  - `GetSocketForFolder` is the socket scan, done over a given directory
    listing. The folder hash is a parameter.
  - `Tokenize` is the `split(" ")` of an input line.
  - `SearchCommand` is `_search`'s argument handling.
  - The `VimpyCli` class holds the registry that `_add_commands` fills.
    `HandleLine` is one iteration of the input loop.
  - `Respond` is an independent, name-based definition of what one line
    prints and sends. `HandleLine`, which goes through the registry, is proved
    equal to it.
- **The search command builder** (`VimHelper`, vimpy/vim_helper.py).
  `SearchInFolder` builds `"!Ack <term> <folder>"`, with the folder defaulting
  to `"."`.
- **Python string operations** (`Strings`): substring membership (`in`),
  `split(" ")` and `" ".join`, with their round trips proved.

The model keeps the following behaviours of the code as written:

- With no matching socket, the code does not raise `SocketNotFound`. Line 29
  of vimpy/vimpy_cli.py only annotates `socket_path` and never binds it, so
  the read on line 33 raises `UnboundLocalError`. The guard on lines 33-34
  can never fire.
- With several matching sockets, the code keeps the last one in listing
  order. It has no modification-time tie-break and no ambiguity error.
- The input line is split on every single space, keeping empty pieces. It is
  not split on runs of whitespace.
- `help` is stored as a lambda that takes no argument. Through `exec` it
  therefore raises `TypeError` instead of listing the commands. The same holds
  for `get_windows` and `get_curr_buffer`, so `search` is the only command
  that `exec` can run.
- The loop has no quit command.

## Model

| member | source | states |
|---|---|---|
| CmdMgr.CommandManager.constructor | vimpy/cmd_mgr.py:13-21 | a new registry holds only `help` with its seeded entry, and its key list is exactly `["help"]` |
| CmdMgr.CommandManager.AddMetaCommands | vimpy/cmd_mgr.py:17-21 | stores the help entry under `help` as a dictionary store: the key is appended only when it was absent |
| CmdMgr.CommandManager.Add | vimpy/cmd_mgr.py:23-30 | a name already present (always including `help`) fails with CommandAlreadyRegistered and leaves table and order unchanged; a fresh name is stored as `{func, desc}` with `desc` defaulting to "" and appended to the key order, with every other entry unchanged; the registry invariant is preserved |
| CmdMgr.CommandManager.Show | vimpy/cmd_mgr.py:32-35 | fails with CommandNotRegistered exactly when the name is absent, otherwise returns the stored entry; changes nothing |
| CmdMgr.CommandManager.Exec | vimpy/cmd_mgr.py:37-40 | an absent name fails with CommandNotRegistered before any handler is called; a present handler that does not take exactly one argument raises TypeError; otherwise the result is that handler called on `args`; changes nothing |
| CmdMgr.CommandManager.All | vimpy/cmd_mgr.py:42-43 | returns the key order: `help` first, every registered name exactly once, as many names as entries |
| Strings.ContainsIff | vimpy/vimpy_cli.py:31 | the scan used for Python's `pat in s` holds exactly when `pat` occurs at some index of `s` |
| Strings.Split | vimpy/vimpy_cli.py:71-72 | `split(" ")` yields at least one piece and no piece contains a space |
| Strings.JoinSplit | vimpy/vimpy_cli.py:71-72 | joining the pieces of a split with single spaces reconstructs the line exactly |
| Strings.SplitJoin | vimpy/vimpy_cli.py:71-72 | splitting a space-joined list of space-free pieces gives the list back |
| VimHelper.SearchInFolder | vimpy/vim_helper.py:6-9 | the result starts with `"!Ack "`, then the search string, then a space, then the folder: `"."` when None, otherwise the given folder verbatim, "" included |
| VimHelper.SearchInFolderSplits | vimpy/vim_helper.py:9 | for a space-free term, the command reads back as the tokens `!Ack`, the term, then the folder's pieces |
| VimpyCli.LastMatch | vimpy/vimpy_cli.py:30-32 | the chosen index holds an entry containing the pattern and no later entry contains it; there is none exactly when no entry contains it |
| VimpyCli.Locate | vimpy/vimpy_cli.py:28-35 | fails with UnboundLocalError exactly when no listing entry contains `"nvim-socket-" + hash`; otherwise returns `"/tmp/" + "/" + name` for a matching name after which nothing matches |
| VimpyCli.GetSocketForFolder | vimpy/vimpy_cli.py:28-35 | the scan loop, which overwrites the path on every match, returns exactly `Locate` of the listing |
| VimpyCli.LaunchedSocketFound | vimpy/vimpy_cli.py:28-35 | a socket named `nvim-socket-<hash>-<suffix>` (the launcher's naming) with no later match is located as `"/tmp//nvim-socket-<hash>-<suffix>"` |
| VimpyCli.Tokenize | vimpy/vimpy_cli.py:71-72 | command and arguments joined with spaces give back the line; none contains a space; `""` gives command `""` and no arguments |
| VimpyCli.TokenizeJoin | vimpy/vimpy_cli.py:71-72 | every space-free command and argument list is recovered from the line that joins them |
| VimpyCli.SearchCommand | vimpy/vimpy_cli.py:42-53 | no arguments raises IndexError; otherwise the command is `"!Ack " + args[0] + " " + folder`, where the folder is `args[1]` when it is present and non-empty and `"app"` otherwise |
| VimpyCli.RespondFailsOrSearches | vimpy/vimpy_cli.py:62-76 | a line sends nothing exactly when it prints a single caught exception; otherwise it was `search`, it sends one `!Ack` command, and it prints that command and then `None`, or the editor's exception when `nvim.command` raises (the command is sent either way) |
| VimpyCli.EmptyLineNotRegistered | vimpy/vimpy_cli.py:70-76 | an empty line prints CommandNotRegistered and sends nothing |
| VimpyCli.NoArgumentCommandsRaise | vimpy/vimpy_cli.py:37-60 | `help`, `get_windows` and `get_curr_buffer` raise TypeError whatever their arguments, because their handlers take no argument |
| VimpyCli.BareSearchRaises | vimpy/vimpy_cli.py:46-48 | the line `search` with no term prints IndexError and sends nothing |
| VimpyCli.SearchLine | vimpy/vimpy_cli.py:46-64 | `search <term> <folder>` prints and sends `!Ack <term> <folder>`, then prints `None`, or the editor's exception when the editor raises |
| VimpyCli.SearchWithoutFolder | vimpy/vimpy_cli.py:42-64 | `search <term>` prints and sends `!Ack <term> app`, then prints `None`, or the editor's exception when the editor raises |
| VimpyCli.SearchFooInSrc | vimpy/vimpy_cli.py:46-54 | the line `search foo ./src` sends `!Ack foo ./src` |
| VimpyCli.VimpyCli.constructor | vimpy/vimpy_cli.py:23-26 | a fresh registry holding exactly help, get_windows, get_curr_buffer and search, in that order |
| VimpyCli.VimpyCli.AddCommands | vimpy/vimpy_cli.py:37-40 | succeeds exactly when none of the three names is registered yet, and then appends them in order with their handlers; on failure raises CommandAlreadyRegistered at the first name already present, with the names before it registered and appended in order and nothing after it added; existing entries are never changed |
| VimpyCli.VimpyCli.HandleLine | vimpy/vimpy_cli.py:62-76 | one loop iteration prints and sends exactly what `Respond` says; it reads the registry and never changes it, so the next line meets the same table |
| VimpyCli.Create | vimpy/vimpy_cli.py:17-26 | start-up fails with UnboundLocalError exactly when the socket scan finds nothing; otherwise it yields a CLI on the located socket with the full command table |

## Left out

- The folder hash: `generate_uuid` (MD5 through `hashlib`, vimpy/common.py:15-16) is a foreign call, so the hash is a string parameter. `generate_random_str` uses randomness and is not modelled.
- vimpy/vim_mgr.py launches `nvim` through `subprocess` and is not modelled. Its socket naming (`nvim-socket-<hash>-<suffix>`) only appears in `LaunchedSocketFound`.
- pylistener/pylistener.py is a script of raw editor calls and is not part of this model.
- The editor connection (`attach`, `nvim.command`, `nvim.current.buffer`, `nvim.windows`): a command sent to the editor is recorded in the `sent` list of a `Reaction`. Whether `nvim.command` raises is a parameter (`editorFails`), and its exception is the single kind `EditorError`, not the client library's own exception classes. Attaching, and attach failures, are not modelled. `_get_curr_buffer` and `_get_curr_windows` only matter through their arity: `exec` can never run them.
- The body of the `help` lambda (`self.all()`) is not modelled, because `exec` can never run it.
- `os.listdir`, `os.getcwd`, `sys.argv`, `input()` and the `">> "` prompt: the listing, the folder and the input line are parameters. Printing is the `printed` list of a `Reaction`.
- The `while True` loop: one iteration is modelled (`HandleLine`). End of input raises `EOFError`, which the loop prints before reading again. That is the same caught-exception path as any other failure.
- VimpyCli.VimpyCli.HandleLine: a caught exception is printed as its kind (`Raised(e)`), not as Python's message text. For example, a bare `CommandNotRegistered` prints an empty line, and a `TypeError` message names the callable.
- CmdMgr.CommandManager.Exec: returns the handler's `Call` on the arguments rather than running it. The CLI runs the one handler `exec` can reach (`_search`) in `HandleLine`.
- CmdMgr.Handler describes a Python callable by its count of positional parameters only. Defaults, `*args` and keyword arguments are not modelled.
