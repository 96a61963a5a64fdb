/** The command registry of vimpy/cmd_mgr.py: a dictionary from command name
    to `{func, desc}`, seeded with `help`, that only ever grows. */
module CmdMgr {
  import opened Wrappers
  import opened Common

  /** A Python callable stored as a handler, known by its qualified name and
      the number of positional arguments it accepts (a bound method's `self`
      not counted). Its body is outside the registry. */
  datatype Handler = Handler(qualname: string, positional: nat)

  /** The `{func, desc}` dictionary stored under each command name. */
  datatype Entry = Entry(func: Handler, desc: string)

  /** The handler `func` applied to `args`, as `exec` performs it once the
      argument count fits; what it then computes is up to the handler. */
  datatype Call = Call(func: Handler, args: seq<string>)

  const HelpName: string := "help"

  /** `lambda: self.all()`: it takes no argument. */
  const HelpHandler: Handler := Handler("CommandManager._add_meta_commands.<locals>.<lambda>", 0)

  const HelpEntry: Entry := Entry(HelpHandler, "Help command")

  /** No name occurs twice in `s`. */
  ghost predicate Distinct(s: seq<string>) {
    forall i, j :: 0 <= i < j < |s| ==> s[i] != s[j]
  }

  class CommandManager {
    /** `self.commands`, as a map ... */
    var commands: map<string, Entry>
    /** ... together with the dictionary's key order, which is insertion order. */
    var order: seq<string>

    /** The key order lists every key exactly once, `help` first, and `help`
        keeps the entry it was seeded with. */
    ghost predicate Valid()
      reads this
    {
      && |order| > 0
      && order[0] == HelpName
      && HelpName in commands
      && commands[HelpName] == HelpEntry
      && (forall k :: k in commands <==> k in order)
      && Distinct(order)
    }

    constructor ()
      ensures Valid()
      ensures commands == map[HelpName := HelpEntry]
      ensures order == [HelpName]
    {
      commands := map[];
      order := [];
      new;
      AddMetaCommands();
    }

    /** `self.commands["help"] = {...}`: a plain dictionary store, which keeps
        the key's position when it is already present. */
    method AddMetaCommands()
      modifies this
      ensures commands == old(commands)[HelpName := HelpEntry]
      ensures order == if HelpName in old(commands) then old(order) else old(order) + [HelpName]
    {
      if HelpName !in commands {
        order := order + [HelpName];
      }
      commands := commands[HelpName := HelpEntry];
    }

    /** Registers `func` under `name`; a name already present is rejected and
        the table is left exactly as it was. */
    method Add(name: string, func: Handler, desc: string := "") returns (r: Outcome<Exception>)
      requires Valid()
      modifies this
      ensures Valid()
      ensures name in old(commands) ==>
        r == Fail(CommandAlreadyRegistered) && commands == old(commands) && order == old(order)
      ensures name !in old(commands) ==>
        r == Pass && commands == old(commands)[name := Entry(func, desc)] && order == old(order) + [name]
    {
      if name in commands {
        return Fail(CommandAlreadyRegistered);
      }
      commands := commands[name := Entry(func, desc)];
      order := order + [name];
      r := Pass;
    }

    /** The entry stored under `name`, or CommandNotRegistered when absent. */
    method Show(name: string) returns (r: Result<Entry, Exception>)
      ensures r.Failure? <==> name !in commands
      ensures r.Failure? ==> r.error == CommandNotRegistered
      ensures r.Success? ==> name in commands && r.value == commands[name]
    {
      if name !in commands {
        return Failure(CommandNotRegistered);
      }
      r := Success(commands[name]);
    }

    /** Looks `name` up and calls its handler with the one positional argument
        `args`; an absent name fails before any handler runs, and a handler
        that does not take exactly one argument raises TypeError. */
    method Exec(name: string, args: seq<string>) returns (r: Result<Call, Exception>)
      ensures name !in commands ==> r == Failure(CommandNotRegistered)
      ensures name in commands && commands[name].func.positional != 1 ==> r == Failure(TypeError)
      ensures name in commands && commands[name].func.positional == 1 ==>
        r == Success(Call(commands[name].func, args))
    {
      var shown := Show(name);
      match shown
      case Failure(e) =>
        r := Failure(e);
      case Success(entry) =>
        if entry.func.positional != 1 {
          r := Failure(TypeError);
        } else {
          r := Success(Call(entry.func, args));
        }
    }

    /** `list(self.commands.keys())`: every registered name once, in the order
        it was registered, `help` first. */
    method All() returns (names: seq<string>)
      requires Valid()
      ensures names == order
      ensures |names| == |commands| && names[0] == HelpName
      ensures forall k :: k in names <==> k in commands
      ensures forall i, j :: 0 <= i < j < |names| ==> names[i] != names[j]
    {
      names := order;
      DistinctKeysCount(order, commands);
    }
  }

  /** A duplicate-free sequence has as many distinct elements as entries. */
  lemma {:induction false} DistinctCard(s: seq<string>)
    requires Distinct(s)
    ensures |(set x | x in s)| == |s|
    decreases |s|
  {
    if |s| > 0 {
      var init := s[..|s| - 1];
      DistinctCard(init);
      var last := s[|s| - 1];
      assert (set x | x in s) == (set x | x in init) + {last} by {
        assert s == init + [last];
      }
      assert last !in (set x | x in init);
    }
  }

  /** A duplicate-free listing of exactly the keys of `m` is as long as `m`. */
  lemma DistinctKeysCount(s: seq<string>, m: map<string, Entry>)
    requires Distinct(s)
    requires forall k :: k in m <==> k in s
    ensures |s| == |m|
  {
    DistinctCard(s);
    assert m.Keys == (set x | x in s);
  }
}
