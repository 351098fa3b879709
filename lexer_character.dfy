/**
 * `LexerCharacter`: the lexer's classification of one character of the
 * feature text, and the character each class stands for.
 */
module LexerCharacters {
  import opened Common

  datatype LexerCharacter =
    | Colon
    | Comment
    | Pipe
    | NewLine
    | Tab
    | Tag
    | Whitespace
    | Generic(c: char)
    | NoChar

  /** The characters that have a class of their own; `\r` counts as a line break. */
  predicate IsSpecial(c: char) {
    c in {':', '#', '|', '\n', '\r', '\t', '@', ' '}
  }

  /**
   * `LexerCharacter.init(char:)` as written: the if-chain assigns a class,
   * but the assignment after it always replaces that class with `.generic`.
   */
  function FromCharAsWritten(c: Option<char>): (r: LexerCharacter)
    ensures c.None? <==> r == NoChar
    ensures c.Some? ==> r == Generic(c.value)
  {
    match c
    case None => NoChar
    case Some(ch) => Generic(ch)
  }

  /**
   * `LexerCharacter.init(char:)` as intended: the class chosen by the
   * if-chain, and `.generic` only for the remaining characters.
   */
  function FromChar(c: Option<char>): (r: LexerCharacter)
    ensures c.None? <==> r == NoChar
    ensures c.Some? && !IsSpecial(c.value) ==> r == Generic(c.value)
    ensures r.Generic? ==> !IsSpecial(r.c)
    ensures c.Some? && c.value != '\r' ==> Representation(r) == c.value
    ensures c == Some('\r') ==> r == NewLine
  {
    match c
    case None => NoChar
    case Some(ch) =>
      if ch == ':' then Colon
      else if ch == '#' then Comment
      else if ch == '|' then Pipe
      else if ch == '\n' || ch == '\r' then NewLine
      else if ch == '\t' then Tab
      else if ch == '@' then Tag
      else if ch == ' ' then Whitespace
      else Generic(ch)
  }

  /** `representation`: the character a class stands for; `.none` is U+0000. */
  function Representation(l: LexerCharacter): (c: char)
    ensures l.Generic? ==> c == l.c
    ensures l == NoChar ==> c == '\0'
  {
    match l
    case Colon => ':'
    case Comment => '#'
    case Pipe => '|'
    case NewLine => '\n'
    case Tab => '\t'
    case Tag => '@'
    case Whitespace => ' '
    case Generic(ch) => ch
    case NoChar => '\0'
  }

  /** Classifying the character a class stands for gives that class back. */
  lemma ClassifyRepresentation(l: LexerCharacter)
    requires l != NoChar && !(l.Generic? && IsSpecial(l.c))
    ensures FromChar(Some(Representation(l))) == l
  {
  }

  /**
   * The classification as written never yields a line break, so a newline is
   * lexed as an ordinary character; the intended one recognises it.
   */
  lemma AsWrittenMissesNewLine()
    ensures FromCharAsWritten(Some('\n')) == Generic('\n')
    ensures FromChar(Some('\n')) == NewLine
    ensures forall c: char :: FromCharAsWritten(Some(c)) != NewLine
  {
  }
}
