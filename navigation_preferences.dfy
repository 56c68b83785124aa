/**
 * The navigator's preferences: whether hidden files are shown and which
 * file-name patterns are hidden, with defaults for keys a stored settings
 * file lacks.
 */
module Navigation {
  import opened Wrappers

  datatype NavigationPreferences = NavigationPreferences(showHiddenFiles: bool, hiddenFilePatterns: seq<string>)

  const DefaultHiddenFilePatterns: seq<string> := ["**/.git", "**/.DS_Store"]

  /** `init()`: hidden files are not shown, and the default patterns are hidden. */
  function Default(): (p: NavigationPreferences)
    ensures !p.showHiddenFiles
    ensures |p.hiddenFilePatterns| == 2 && "**/.git" in p.hiddenFilePatterns && "**/.DS_Store" in p.hiddenFilePatterns
  {
    NavigationPreferences(false, DefaultHiddenFilePatterns)
  }

  /**
   * One key of the keyed decoding container: missing, present with a
   * value of the expected type, or present with a value of another type.
   */
  datatype Field<T> = Absent | Present(value: T) | Mismatched

  /** The two keys as the decoder finds them; other keys are ignored. */
  datatype Container = Container(showHiddenFiles: Field<bool>, hiddenFilePatterns: Field<seq<string>>)

  datatype DecodingError = TypeMismatch(key: string)

  /** `decodeIfPresent(...) ?? default` on one key. */
  function DecodeIfPresent<T>(f: Field<T>, key: string, default: T): Result<T, DecodingError>
  {
    match f
    case Absent => Success(default)
    case Present(v) => Success(v)
    case Mismatched => Failure(TypeMismatch(key))
  }

  /** `init(from:)`: the keys are decoded in order, so the first bad one is reported. */
  function Decode(c: Container): Result<NavigationPreferences, DecodingError>
  {
    match DecodeIfPresent(c.showHiddenFiles, "showHiddenFiles", false)
    case Failure(e) => Failure(e)
    case Success(show) =>
      match DecodeIfPresent(c.hiddenFilePatterns, "hiddenFilePatterns", DefaultHiddenFilePatterns)
      case Failure(e) => Failure(e)
      case Success(patterns) => Success(NavigationPreferences(show, patterns))
  }

  /** The synthesised encoder writes both keys. */
  function Encode(p: NavigationPreferences): Container
  {
    Container(Present(p.showHiddenFiles), Present(p.hiddenFilePatterns))
  }

  /**
   * Decoding fails exactly when a key holds the wrong type; a missing key
   * takes its default and a present one is taken as decoded.
   */
  lemma DecodeCases(c: Container)
    ensures Decode(c).Failure? <==> c.showHiddenFiles.Mismatched? || c.hiddenFilePatterns.Mismatched?
    ensures c.showHiddenFiles.Mismatched? ==> Decode(c) == Failure(TypeMismatch("showHiddenFiles"))
    ensures Decode(c).Success? ==>
      Decode(c).value.showHiddenFiles == (if c.showHiddenFiles.Present? then c.showHiddenFiles.value else Default().showHiddenFiles)
      && Decode(c).value.hiddenFilePatterns
         == (if c.hiddenFilePatterns.Present? then c.hiddenFilePatterns.value else Default().hiddenFilePatterns)
  {
  }

  /** An empty settings object decodes to the defaults, and encoding then decoding loses nothing. */
  lemma DecodeRoundTrip(p: NavigationPreferences)
    ensures Decode(Container(Absent, Absent)) == Success(Default())
    ensures Decode(Encode(p)) == Success(p)
  {
  }
}
