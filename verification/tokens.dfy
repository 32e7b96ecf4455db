/** The scanner's output alphabet (src/token.ts). */
module Tokens {

  import opened Wrappers

  /** The 27 token kinds. Asterisk and Dash each serve two roles: `*` starts an
      assignment and multiplies inside a chain, `-` introduces a parameter or argument
      and subtracts inside a chain. */
  datatype Kind =
    // structural symbols
    | Asterisk | At | Ampersand | Bang | Tilde | Colon | Caret | Dash | Underscore
    // literals
    | Number | String | Identifier
    // operators
    | Plus | Slash | Percent | EqualEqual | BangEqual | Greater | GreaterEqual | Less | LessEqual
    // keywords
    | If | Else | Return | Alert
    // misc
    | Comment | EOF

  /** A token: its kind, the source text it stands for, and its 1-based position. */
  datatype Token = Token(kind: Kind, text: string, line: int, column: int)

  const AllKinds: seq<Kind> := [
    Asterisk, At, Ampersand, Bang, Tilde, Colon, Caret, Dash, Underscore,
    Number, String, Identifier,
    Plus, Slash, Percent, EqualEqual, BangEqual, Greater, GreaterEqual, Less, LessEqual,
    If, Else, Return, Alert,
    Comment, EOF]

  predicate IsStructural(k: Kind) {
    k in {Asterisk, At, Ampersand, Bang, Tilde, Colon, Caret, Dash, Underscore}
  }

  predicate IsLiteral(k: Kind) {
    k in {Number, String, Identifier}
  }

  /** The kinds listed as operators in the enumeration. */
  predicate IsOperator(k: Kind) {
    k in {Plus, Slash, Percent, EqualEqual, BangEqual, Greater, GreaterEqual, Less, LessEqual}
  }

  predicate IsKeyword(k: Kind) {
    k in {If, Else, Return, Alert}
  }

  /** The kinds the parser accepts between two `&` of a chain (`checkOperator`): the nine
      operators plus the two dual-role symbols. */
  predicate IsChainOperator(k: Kind) {
    IsOperator(k) || k == Dash || k == Asterisk
  }

  /** The kinds at which the parser's error recovery stops, and with which a statement
      begins. */
  predicate IsStatementStart(k: Kind) {
    k in {Asterisk, Tilde, Bang, Colon, Caret}
  }

  /** The words that get their own kind. */
  const KeywordTexts: set<string> := {"if", "else", "return", "alert"}

  /** `getKeyword`: the kind of a reserved word, or None for any other word. */
  function KeywordKind(word: string): (r: Option<Kind>)
    ensures r.Some? <==> word in KeywordTexts
    ensures r.Some? ==> IsKeyword(r.value)
  {
    match word
    case "if" => Some(If)
    case "else" => Some(Else)
    case "return" => Some(Return)
    case "alert" => Some(Alert)
    case _ => None
  }

  /** The text a token of kind `k` always carries when `k` is not a literal, comment or
      EOF kind: every symbol, operator and keyword has one spelling. */
  function FixedText(k: Kind): Option<string> {
    match k
    case Asterisk => Some("*")
    case At => Some("@")
    case Ampersand => Some("&")
    case Bang => Some("!")
    case Tilde => Some("~")
    case Colon => Some(":")
    case Caret => Some("^")
    case Dash => Some("-")
    case Underscore => Some("_")
    case Plus => Some("+")
    case Slash => Some("/")
    case Percent => Some("%")
    case EqualEqual => Some("==")
    case BangEqual => Some("!=")
    case Greater => Some(">")
    case GreaterEqual => Some(">=")
    case Less => Some("<")
    case LessEqual => Some("<=")
    case If => Some("if")
    case Else => Some("else")
    case Return => Some("return")
    case Alert => Some("alert")
    case _ => None
  }

  /** The position of a kind in the enumeration's declaration order. */
  function KindIndex(k: Kind): nat {
    match k
    case Asterisk => 0
    case At => 1
    case Ampersand => 2
    case Bang => 3
    case Tilde => 4
    case Colon => 5
    case Caret => 6
    case Dash => 7
    case Underscore => 8
    case Number => 9
    case String => 10
    case Identifier => 11
    case Plus => 12
    case Slash => 13
    case Percent => 14
    case EqualEqual => 15
    case BangEqual => 16
    case Greater => 17
    case GreaterEqual => 18
    case Less => 19
    case LessEqual => 20
    case If => 21
    case Else => 22
    case Return => 23
    case Alert => 24
    case Comment => 25
    case EOF => 26
  }

  /** The kind set is closed: 27 kinds, every kind is listed once (the listing inverts
      `KindIndex`, so no kind appears twice), and each kind falls in one of the groups
      of the enumeration (9 symbols, 3 literals, 9 operators, 4 keywords, Comment, EOF). */
  lemma KindSetClosed(k: Kind)
    ensures |AllKinds| == 27
    ensures KindIndex(k) < 27 && AllKinds[KindIndex(k)] == k
    ensures forall i :: 0 <= i < |AllKinds| ==> KindIndex(AllKinds[i]) == i
    ensures IsStructural(k) || IsLiteral(k) || IsOperator(k) || IsKeyword(k) || k == Comment || k == EOF
    ensures !(IsStructural(k) && IsLiteral(k)) && !(IsStructural(k) && IsOperator(k))
    ensures !(IsOperator(k) && IsKeyword(k)) && !(IsLiteral(k) && IsKeyword(k))
  {
    ListingInvertsIndex();
    match k
    case Asterisk =>
    case At =>
    case Ampersand =>
    case Bang =>
    case Tilde =>
    case Colon =>
    case Caret =>
    case Dash =>
    case Underscore =>
    case Number =>
    case String =>
    case Identifier =>
    case Plus =>
    case Slash =>
    case Percent =>
    case EqualEqual =>
    case BangEqual =>
    case Greater =>
    case GreaterEqual =>
    case Less =>
    case LessEqual =>
    case If =>
    case Else =>
    case Return =>
    case Alert =>
    case Comment =>
    case EOF =>
  }

  lemma ListingInvertsIndex()
    ensures |AllKinds| == 27
    ensures forall i :: 0 <= i < |AllKinds| ==> KindIndex(AllKinds[i]) == i
  {
    forall i | 0 <= i < |AllKinds|
      ensures KindIndex(AllKinds[i]) == i
    {
      if i < 9 {
        assert AllKinds[i] == [Asterisk, At, Ampersand, Bang, Tilde, Colon, Caret, Dash, Underscore][i];
      } else if i < 18 {
        assert AllKinds[i] == [Number, String, Identifier, Plus, Slash, Percent, EqualEqual, BangEqual, Greater][i - 9];
      } else {
        assert AllKinds[i] == [GreaterEqual, Less, LessEqual, If, Else, Return, Alert, Comment, EOF][i - 18];
      }
    }
  }

  /** Every keyword kind is the kind of exactly one word, and that word is its fixed
      text; a word that is not one of the four reserved words has no kind of its own. */
  lemma KeywordsAreExactlyFour(word: string)
    ensures KeywordKind(word).Some? ==> FixedText(KeywordKind(word).value) == Some(word)
    ensures forall k :: IsKeyword(k) ==> FixedText(k).Some? && KeywordKind(FixedText(k).value) == Some(k)
  {
  }

  /** Asterisk and Dash are each one kind that both the statement grammar and the chain
      grammar use, so the kind alone never tells the two uses apart. */
  lemma DualRoleSymbols()
    ensures IsChainOperator(Asterisk) && IsStatementStart(Asterisk)
    ensures IsChainOperator(Dash) && IsStructural(Dash) && !IsOperator(Dash)
  {
  }
}
