/**
 * The tokens the current lexer produces and the line scanner consumes: a
 * token type, the text the token was read from, and where it starts.
 */
module Tokens {
  import opened Common
  import opened Keywords

  /**
   * `TokenType`: free text, a keyword, end of input, or a comment or language
   * line. The current lexer emits only the first three; the scanner's
   * classifiers also recognise the other two.
   */
  datatype TokenType =
    | Expression(content: string)
    | KeywordToken(keyword: GherkinKeyword)
    | Eof
    | CommentToken(comment: string)
    | LanguageToken(languageId: string)

  /** A token: its type, the text it stands for (none for end of input), and its location. */
  datatype Token = Token(tokenType: TokenType, value: Option<string>, location: Location)

  const PipeKeyword: GherkinKeyword := Secondary(SecondaryKeyword(PipeKey, None))

  function TagKeyword(name: string): GherkinKeyword {
    Secondary(SecondaryKeyword(TagKey, Some(name)))
  }

  predicate IsPipe(t: Token) {
    t.tokenType == KeywordToken(PipeKeyword)
  }

  predicate IsTag(t: Token) {
    t.tokenType.KeywordToken? && t.tokenType.keyword.Secondary?
    && t.tokenType.keyword.secondary.keyType == TagKey
  }

  predicate IsExpression(t: Token) {
    t.tokenType.Expression?
  }

  predicate IsDocStringKeyword(t: Token) {
    t.tokenType.KeywordToken? && t.tokenType.keyword.DocString?
  }

  predicate IsPrimary(t: Token, k: PrimaryKeyword) {
    t.tokenType == KeywordToken(Primary(k))
  }

  predicate IsStep(t: Token) {
    t.tokenType.KeywordToken? && t.tokenType.keyword.Step?
  }
}
