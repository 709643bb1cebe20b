/** Shared wrappers, the app's error type, and the string helpers of Utils.swift. */
module Utils {

  datatype Option<+T> = None | Some(value: T)

  datatype Result<+R, +E> = Success(value: R) | Failure(error: E)

  /** An error as `handle` sees it: the app's own `DataError.unknown(message:)`,
      or any other error, known only by its localized description. */
  datatype Error = Unknown(message: string) | Foreign(localizedDescription: string)

  /** The text `handle` shows for an error. */
  function Message(e: Error): string {
    match e
    case Unknown(msg) => msg
    case Foreign(desc) => desc
  }

  /** `err(msg)`: wraps a message as the app's own error; `handle` shows exactly that message. */
  function Err(msg: string): (e: Error)
    ensures e.Unknown?
    ensures Message(e) == msg
  {
    Unknown(msg)
  }

  // ---------------------------------------------------------------------------
  // trimmed(_:_:_:)

  const Ellipsis: string := "..."

  /** Shortens `str` to its first `startInclude` and last `endInclude` characters around "...",
      when it is longer than that result would be; otherwise returns it unchanged.
      Swift's `prefix`/`suffix` trap on a negative count, so negative counts are only
      admitted where the shortening branch is not taken. */
  function Trimmed(str: string, startInclude: int, endInclude: int): (r: string)
    requires |str| > startInclude + endInclude + |Ellipsis| ==> startInclude >= 0 && endInclude >= 0
    ensures |str| <= startInclude + endInclude + |Ellipsis| ==> r == str
    ensures |str| > startInclude + endInclude + |Ellipsis| ==>
      && |r| == startInclude + endInclude + |Ellipsis|
      && r[..startInclude] == str[..startInclude]
      && r[startInclude..startInclude + |Ellipsis|] == Ellipsis
      && r[startInclude + |Ellipsis|..] == str[|str| - endInclude..]
  {
    if |str| > startInclude + endInclude + |Ellipsis| then
      str[..startInclude] + Ellipsis + str[|str| - endInclude..]
    else
      str
  }

  /** The result of `trimmed` is never longer than its input. */
  lemma TrimmedNeverLonger(str: string, startInclude: int, endInclude: int)
    requires |str| > startInclude + endInclude + |Ellipsis| ==> startInclude >= 0 && endInclude >= 0
    ensures |Trimmed(str, startInclude, endInclude)| <= |str|
  {
  }

  /** Trimming twice with the same counts gives the same string as trimming once. */
  lemma TrimmedIdempotent(str: string, startInclude: int, endInclude: int)
    requires |str| > startInclude + endInclude + |Ellipsis| ==> startInclude >= 0 && endInclude >= 0
    ensures var once := Trimmed(str, startInclude, endInclude);
      Trimmed(once, startInclude, endInclude) == once
  {
  }

  // ---------------------------------------------------------------------------
  // validateFilename(_:) — the pattern ^[\w\-\s\:\.]+$ under ICU regular expressions

  /** ICU's `\w`, restricted to ASCII: letters, decimal digits and the connector `_`,
      plus the joiners U+200C and U+200D that ICU adds. */
  predicate IsWordChar(c: char) {
    || 'a' <= c <= 'z'
    || 'A' <= c <= 'Z'
    || '0' <= c <= '9'
    || c == '_'
    || c == '\U{200C}' || c == '\U{200D}'
  }

  /** ICU's `\s`: tab, line feed, form feed, carriage return and the separators of \p{Z}. */
  predicate IsSpaceChar(c: char) {
    || c == '\t' || c == '\n' || c == '\U{000C}' || c == '\r'
    || c == ' ' || c == '\U{00A0}' || c == '\U{1680}'
    || '\U{2000}' <= c <= '\U{200A}'
    || c == '\U{2028}' || c == '\U{2029}' || c == '\U{202F}' || c == '\U{205F}' || c == '\U{3000}'
  }

  /** Membership in the character class `[\w\-\s\:\.]`. */
  predicate IsFilenameChar(c: char) {
    IsWordChar(c) || c == '-' || IsSpaceChar(c) || c == ':' || c == '.'
  }

  /** States of the matcher for `^[class]+$`: before the first class character, and after at least one. */
  datatype MatchState = AwaitFirst | InClass

  /** Runs the matcher over the rest of the input; the pattern matches when the input ends in `InClass`. */
  function Run(s: string, state: MatchState): bool
  {
    if s == [] then state == InClass
    else if IsFilenameChar(s[0]) then Run(s[1..], InClass)
    else false
  }

  /** `validateFilename`: whether the whole filename matches `^[\w\-\s\:\.]+$`. */
  function ValidateFilename(filename: string): (valid: bool)
    ensures valid <==> |filename| > 0 && forall i :: 0 <= i < |filename| ==> IsFilenameChar(filename[i])
  {
    RunInClass(filename, AwaitFirst);
    Run(filename, AwaitFirst)
  }

  lemma {:induction false} RunInClass(s: string, state: MatchState)
    ensures Run(s, state) <==>
      (state == InClass || |s| > 0) && forall i :: 0 <= i < |s| ==> IsFilenameChar(s[i])
  {
    if s != [] {
      RunInClass(s[1..], InClass);
      if IsFilenameChar(s[0]) {
        assert forall i :: 0 < i < |s| ==> s[i] == s[1..][i - 1];
      }
    }
  }

  /** The empty name is rejected: the class must match at least once. */
  lemma ValidateFilenameRejectsEmpty()
    ensures !ValidateFilename("")
  {
  }

  /** A name holding a path separator is rejected. */
  lemma ValidateFilenameRejectsSlash(filename: string, k: nat)
    requires k < |filename| && filename[k] == '/'
    ensures !ValidateFilename(filename)
  {
  }

  /** No `.mov` extension is demanded: a bare date, as `defaultFilename` proposes, is valid. */
  lemma ValidateFilenameNeedsNoExtension()
    ensures ValidateFilename("2024-07-04")
  {
  }

  // ---------------------------------------------------------------------------
  // Decimal rendering of an Int inside string interpolation

  function DigitChar(d: nat): char
    requires d < 10
  {
    "0123456789"[d]
  }

  function NatToString(n: nat): (r: string)
    ensures |r| > 0
    decreases n
  {
    if n < 10 then [DigitChar(n)] else NatToString(n / 10) + [DigitChar(n % 10)]
  }

  /** `"\(n)"` for an `Int`. */
  function IntToString(n: int): string
  {
    if n < 0 then "-" + NatToString(-n) else NatToString(n)
  }
}
