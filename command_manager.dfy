/**
 * The command palette's registry: commands stored under a key, listed,
 * and looked up to run their handler.
 */
module Commands {
  import opened Wrappers

  /**
   * A command handler is a closure; the model knows it only by an
   * identifying number, and "running" it means returning that number.
   */
  type Handler = nat

  datatype Command = Command(id: string, title: string, handler: Option<Handler>)

  /** `Command.==`: commands are equal when their ids are. */
  predicate SameCommand(a: Command, b: Command)
  {
    a.id == b.id
  }

  /** `Command.<`: no command precedes another. */
  predicate Precedes(a: Command, b: Command)
  {
    false
  }

  /** What `Command.hash(into:)` feeds the hasher. */
  function HashInput(c: Command): string
  {
    c.id
  }

  /**
   * Equality is an equivalence that ignores title and handler, the hash
   * agrees with it, and `<` relates nothing.
   */
  lemma CommandIdentity(a: Command, b: Command, c: Command)
    ensures SameCommand(a, a)
    ensures SameCommand(a, b) ==> SameCommand(b, a)
    ensures SameCommand(a, b) && SameCommand(b, c) ==> SameCommand(a, c)
    ensures SameCommand(a, b) <==> HashInput(a) == HashInput(b)
    ensures SameCommand(a, Command(a.id, b.title, b.handler))
    ensures !Precedes(a, b)
  {
  }

  /**
   * The map `addCommand` leaves behind: the entry under `id` is replaced by
   * a command whose own id is `name`, as the source writes it.
   */
  function WithCommand(list: map<string, Command>, name: string, title: string, id: string, handler: Handler): map<string, Command>
  {
    list[id := Command(name, title, Some(handler))]
  }

  /**
   * Adding stores the new command under `id`, keeps every other entry,
   * and grows the registry only when `id` is new.
   */
  lemma WithCommandFacts(list: map<string, Command>, name: string, title: string, id: string, handler: Handler)
    ensures var m := WithCommand(list, name, title, id, handler);
      && m.Keys == list.Keys + {id}
      && m[id].id == name && m[id].title == title && m[id].handler == Some(handler)
      && (forall k :: k in list && k != id ==> m[k] == list[k])
      && |m| == if id in list then |list| else |list| + 1
  {
    var m := WithCommand(list, name, title, id, handler);
    if id !in list {
      assert m.Keys == list.Keys + {id};
    } else {
      assert m.Keys == list.Keys;
    }
  }

  /** A listing that reads each key of `m` yields exactly the values of `m`. */
  lemma ListedValues(m: map<string, Command>, r: seq<Command>, keys: seq<string>)
    requires |r| == |keys|
    requires forall k :: k in keys <==> k in m
    requires forall i :: 0 <= i < |r| ==> keys[i] in m && r[i] == m[keys[i]]
    ensures forall c :: c in r <==> c in m.Values
  {
    forall c | c in m.Values
      ensures c in r
    {
      var k :| k in m && m[k] == c;
      var i :| 0 <= i < |keys| && keys[i] == k;
      assert r[i] == c;
    }
  }

  class CommandManager {
    var commandsList: map<string, Command>

    /** A new manager holds no commands. */
    constructor ()
      ensures commandsList == map[]
    {
      commandsList := map[];
    }

    method AddCommand(name: string, title: string, id: string, command: Handler)
      modifies this
      ensures commandsList == WithCommand(old(commandsList), name, title, id, command)
    {
      commandsList := commandsList[id := Command(name, title, Some(command))];
    }

    /**
     * `commands`: every stored command once, in some order. `keys` says
     * which key each one was stored under.
     */
    method Commands() returns (r: seq<Command>, ghost keys: seq<string>)
      ensures |r| == |commandsList|
      ensures forall c :: c in r <==> c in commandsList.Values
      ensures |keys| == |commandsList|
      ensures forall i, j :: 0 <= i < j < |keys| ==> keys[i] != keys[j]
      ensures forall k :: k in keys <==> k in commandsList
      ensures forall i :: 0 <= i < |r| ==> keys[i] in commandsList && r[i] == commandsList[keys[i]]
    {
      r, keys := [], [];
      var rest := commandsList.Keys;
      while rest != {}
        invariant rest <= commandsList.Keys
        invariant |r| == |keys| && |keys| + |rest| == |commandsList.Keys|
        invariant forall i, j :: 0 <= i < j < |keys| ==> keys[i] != keys[j]
        invariant forall k :: k in keys <==> k in commandsList && k !in rest
        invariant forall i :: 0 <= i < |r| ==> keys[i] in commandsList && r[i] == commandsList[keys[i]]
        decreases |rest|
      {
        var k :| k in rest;
        r, keys := r + [commandsList[k]], keys + [k];
        rest := rest - {k};
      }
      ListedValues(commandsList, r, keys);
    }

    /**
     * `executeCommand`: the handler that runs, which is none for an unknown
     * key or a command without a handler.
     */
    method ExecuteCommand(id: string) returns (ran: Option<Handler>)
      ensures ran.Some? <==> id in commandsList && commandsList[id].handler.Some?
      ensures ran.Some? ==> ran == commandsList[id].handler
    {
      if id in commandsList && commandsList[id].handler.Some? {
        ran := commandsList[id].handler;
      } else {
        ran := None;
      }
    }
  }

  /**
   * A command added under one key and run by that key runs its handler,
   * even though its own id is the name it was given.
   */
  method AddThenExecuteExample() returns (ran: Option<Handler>, listed: seq<Command>)
    ensures ran == Some(7)
    ensures listed == [Command("test", "Test", Some(7))]
  {
    var manager := new CommandManager();
    manager.AddCommand("test", "Test", "palette.test", 7);
    ran := manager.ExecuteCommand("palette.test");
    ghost var keys;
    listed, keys := manager.Commands();
    assert keys[0] in manager.commandsList;
  }
}
