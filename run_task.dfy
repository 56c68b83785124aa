/**
 * A task the user runs: a command line with variables to insert at given
 * positions, and how a variable's path extension is joined to a path.
 */
module RunTasks {
  import opened Wrappers
  import opened Text
  import opened Sorting

  type Bytes = seq<bv8>

  datatype VariableType = WorkspacePath | UserPath | CodeEditPath | SettingsPath

  datatype VariableValueKey = PathExtension

  datatype Variable = Variable(insertPosition: int, varType: VariableType, value: map<VariableValueKey, Bytes>)

  datatype RunTask = RunTask(rawTask: string, inserts: set<Variable>, environment: map<string, string>)

  function InsertPosition(v: Variable): int
  {
    v.insertPosition
  }

  /** `target.insert(contentsOf: s, at: target.index(target.startIndex, offsetBy: p))`. */
  function InsertAt(target: string, s: string, p: int): (r: string)
    requires 0 <= p <= |target|
    ensures |r| == |target| + |s|
    ensures r[..p] == target[..p] && r[p..p + |s|] == s && r[p + |s|..] == target[p..]
  {
    target[..p] + s + target[p..]
  }

  /** The elements of a set, each once, in an order the set does not fix. */
  method Elements(inserts: set<Variable>) returns (items: seq<Variable>)
    ensures |items| == |inserts| && forall v :: v in items <==> v in inserts
  {
    items := [];
    var rest := inserts;
    while rest != {}
      invariant rest <= inserts
      invariant |items| + |rest| == |inserts|
      invariant forall v :: v in items <==> v in inserts && v !in rest
      decreases |rest|
    {
      var v :| v in rest;
      items := items + [v];
      rest := rest - {v};
    }
  }

  /**
   * `buildExecutionString`. The inserts are visited from the highest
   * position down (`visited` is that order), and each inserts the empty
   * string, so the raw task comes back unchanged. A position outside the
   * string makes `index(_:offsetBy:)` trap, hence the precondition.
   */
  method BuildExecutionString(task: RunTask) returns (finalString: string, ghost visited: seq<Variable>)
    requires forall v :: v in task.inserts ==> 0 <= v.insertPosition <= |task.rawTask|
    ensures finalString == task.rawTask
    ensures |visited| == |task.inserts| && forall v :: v in visited <==> v in task.inserts
    ensures SortedDesc(InsertPosition, visited)
  {
    finalString := task.rawTask;
    var items := Elements(task.inserts);
    var allInserts := SortDesc(InsertPosition, items);
    SortDescCorrect(InsertPosition, items);
    assert forall v :: v in allInserts <==> v in items by {
      forall v ensures v in allInserts <==> v in items {
        assert v in allInserts <==> v in multiset(allInserts);
      }
    }
    var i := 0;
    while i < |allInserts|
      invariant 0 <= i <= |allInserts|
      invariant finalString == task.rawTask
    {
      var insert := allInserts[i];
      finalString := InsertAt(finalString, "", insert.insertPosition);
      i := i + 1;
    }
    visited := allInserts;
  }

  /** The extension as it is appended: itself when it starts with "/", else with "/" in front. */
  function Slashed(ext: string): string
  {
    if HasPrefix(ext, "/") then ext else "/" + ext
  }

  /**
   * The appended part always starts with "/" and ends with the extension,
   * adds at most that one character, and is not changed by a second pass.
   */
  lemma SlashedProps(ext: string)
    ensures |Slashed(ext)| > 0 && Slashed(ext)[0] == '/'
    ensures |Slashed(ext)| == |ext| || |Slashed(ext)| == |ext| + 1
    ensures Slashed(ext)[|Slashed(ext)| - |ext|..] == ext
    ensures Slashed(Slashed(ext)) == Slashed(ext)
  {
    assert HasPrefix(Slashed(ext), "/");
  }

  /**
   * `resolvePathExtension`. Turning the stored bytes into a string is UTF-8
   * decoding, passed in as `utf8`.
   */
  method ResolvePathExtension(variable: Variable, path: string, utf8: Bytes -> Option<string>) returns (resolved: string)
    ensures PathExtension !in variable.value || utf8(variable.value[PathExtension]).None? ==> resolved == path
    ensures PathExtension in variable.value && utf8(variable.value[PathExtension]).Some? ==>
      resolved == path + Slashed(utf8(variable.value[PathExtension]).value)
  {
    resolved := path;
    if PathExtension in variable.value {
      var pathExtension := utf8(variable.value[PathExtension]);
      if pathExtension.Some? {
        if HasPrefix(pathExtension.value, "/") {
          resolved := resolved + pathExtension.value;
        } else {
          resolved := resolved + ("/" + pathExtension.value);
        }
      }
    }
  }

  /** "/src" and "src" both extend "/work" to "/work/src"; an empty extension adds "/". */
  lemma SlashedExamples()
    ensures "/work" + Slashed("/src") == "/work/src"
    ensures "/work" + Slashed("src") == "/work/src"
    ensures "/work" + Slashed("") == "/work/"
  {
    assert HasPrefix("/src", "/");
    assert "src"[..1][0] == 's';
  }
}
