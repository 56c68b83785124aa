/**
 * How a registry entry's resolved `bin` string names the tool that runs
 * it: an identifier, a colon, and the string handed to that tool.
 */
module PackageExecutable {
  import opened Wrappers
  import opened Text
  import PM = PackageManager

  datatype PackageExecutableType = Cargo | Npm | Node | Pip | Gem | Golang | Composer

  /** The identifier `parse(binString:)` accepts for each type. */
  function Identifier(t: PackageExecutableType): string
  {
    match t
    case Cargo => "cargo"
    case Npm => "npm"
    case Node => "node"
    case Pip => "pypi"
    case Gem => "gem"
    case Golang => "golang"
    case Composer => "composer"
  }

  /** The `switch identifier` of `parse(binString:)`. */
  function FromIdentifier(s: string): Option<PackageExecutableType>
  {
    if s == "cargo" then Some(Cargo)
    else if s == "npm" then Some(Npm)
    else if s == "node" then Some(Node)
    else if s == "pypi" then Some(Pip)
    else if s == "gem" then Some(Gem)
    else if s == "golang" then Some(Golang)
    else if s == "composer" then Some(Composer)
    else None
  }

  /** Each type has exactly one identifier, and "pypi" is the one for Pip. */
  lemma IdentifierRoundTrip(t: PackageExecutableType, s: string)
    ensures FromIdentifier(Identifier(t)) == Some(t)
    ensures FromIdentifier(s) == Some(t) ==> s == Identifier(t)
    ensures IsPiece(Identifier(t), ':')
  {
  }

  /**
   * `parse(binString:)`: the first non-empty `:`-separated component picks
   * the type; the remaining non-empty components, rejoined with ":", are
   * the payload.
   */
  function Parse(binString: string): Option<(PackageExecutableType, string)>
  {
    var parts := Split(binString, ':');
    if parts == [] then None
    else match FromIdentifier(parts[0])
      case None => None
      case Some(t) => Some((t, Join(parts[1..], ":")))
  }

  /** A known identifier, a colon, and colon-joined non-empty pieces parse back to those pieces. */
  lemma ParseRoundTrip(t: PackageExecutableType, ws: seq<string>)
    requires forall i :: 0 <= i < |ws| ==> IsPiece(ws[i], ':')
    ensures Parse(Identifier(t) + ":" + Join(ws, ":")) == Some((t, Join(ws, ":")))
  {
    IdentifierRoundTrip(t, "");
    SplitAfterPiece(Identifier(t), Join(ws, ":"), ':');
    SplitJoin(ws, ':');
    assert ([Identifier(t)] + ws)[1..] == ws;
  }

  /** A first component that is not one of the seven identifiers gives nil. */
  lemma ParseUnknownIdentifier(identifier: string, rest: string)
    requires IsPiece(identifier, ':') && FromIdentifier(identifier).None?
    ensures Parse(identifier + ":" + rest).None?
  {
    SplitAfterPiece(identifier, rest, ':');
  }

  /** A string with no non-empty component (such as "" or ":::") gives nil. */
  lemma {:induction false} ParseNoComponent(s: string)
    requires forall i :: 0 <= i < |s| ==> s[i] == ':'
    ensures Split(s, ':') == []
    ensures Parse(s).None?
    decreases |s|
  {
    if s != [] {
      ParseNoComponent(s[1..]);
    }
  }

  /**
   * What `parse` returns is normalised: re-parsing the identifier followed
   * by the payload gives the same answer (the dropped empty components stay
   * dropped).
   */
  lemma ParseNormalises(s: string)
    ensures Parse(s).Some? ==> Parse(Identifier(Parse(s).value.0) + ":" + Parse(s).value.1) == Parse(s)
  {
    if Parse(s).Some? {
      var parts := Split(s, ':');
      SplitPieces(s, ':');
      ParseRoundTrip(Parse(s).value.0, parts[1..]);
    }
  }

  /** Later components are rejoined with ":". */
  lemma ParseRejoins(t: PackageExecutableType, a: string, b: string)
    requires IsPiece(a, ':') && IsPiece(b, ':')
    ensures Parse(Identifier(t) + ":" + a + ":" + b) == Some((t, a + ":" + b))
  {
    var ws := [a, b];
    assert Join(ws, ":") == a + ":" + b by {
      assert ws[1..] == [b];
    }
    ParseRoundTrip(t, ws);
    assert Identifier(t) + ":" + a + ":" + b == Identifier(t) + ":" + (a + ":" + b);
  }

  lemma SplitAfterDoubleColon(id: string, rest: string)
    requires IsPiece(id, ':')
    ensures Split(id + "::" + rest, ':') == Split(id + ":" + rest, ':')
  {
    SplitAfterPiece(id, rest, ':');
    SplitAfterPiece(id, [':'] + rest, ':');
    SplitSkipsSeparator(rest, ':');
    assert id + "::" + rest == id + [':'] + ([':'] + rest);
  }

  /** An empty component after the identifier is dropped, as `split` omits it. */
  lemma ParseDropsEmpty(t: PackageExecutableType, rest: string)
    ensures Parse(Identifier(t) + "::" + rest) == Parse(Identifier(t) + ":" + rest)
  {
    IdentifierRoundTrip(t, "");
    SplitAfterDoubleColon(Identifier(t), rest);
  }

  /** The Python identifier is "pypi", not "pip". */
  lemma ParsePypi(payload: string)
    requires IsPiece(payload, ':')
    ensures Parse("pypi:" + payload) == Some((Pip, payload))
    ensures Parse("pip:" + payload).None?
  {
    assert Parse("pypi:" + payload) == Some((Pip, payload)) by {
      ParseRoundTrip(Pip, [payload]);
      assert Identifier(Pip) + ":" + Join([payload], ":") == "pypi:" + payload;
    }
    assert Parse("pip:" + payload).None? by {
      ParseUnknownIdentifier("pip", payload);
      assert "pip" + ":" + payload == "pip:" + payload;
    }
  }

  /** `executableResolver(installPath:)`: the installer that resolves the payload, if any. */
  function ExecutableResolver(t: PackageExecutableType): Option<PM.Installer>
  {
    match t
    case Npm => Some(PM.NPMPackageManager)
    case Cargo => Some(PM.CargoPackageManager)
    case Pip => Some(PM.PipPackageManager)
    case Golang => Some(PM.GolangPackageManager)
    case Node => None
    case Gem | Composer => None
  }

  /** The package manager of the same ecosystem; Node has none. */
  function Ecosystem(t: PackageExecutableType): Option<PM.PackageManagerType>
  {
    match t
    case Cargo => Some(PM.Cargo)
    case Npm => Some(PM.Npm)
    case Node => None
    case Pip => Some(PM.Pip)
    case Gem => Some(PM.Gem)
    case Golang => Some(PM.Golang)
    case Composer => Some(PM.Composer)
  }

  /**
   * A type has an executable resolver exactly when it has an ecosystem
   * whose package manager has an installer, and the resolver is that
   * installer. So Node, Gem and Composer have none.
   */
  lemma ResolverIsEcosystemInstaller(t: PackageExecutableType)
    ensures ExecutableResolver(t).Some? <==> Ecosystem(t).Some? && PM.PackageManager(Ecosystem(t).value).Some?
    ensures ExecutableResolver(t).Some? ==> ExecutableResolver(t) == PM.PackageManager(Ecosystem(t).value)
    ensures ExecutableResolver(t).None? <==> t in {Node, Gem, Composer}
  {
  }
}
