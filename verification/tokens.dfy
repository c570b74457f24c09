/** The token identifiers, in the order of the token list. */
module Tokens {
  import opened TokenSets

  const TKN_IDENT: Token := 3
  const TKN_NUMBER_LITERAL: Token := 4
  const TKN_STRING_LITERAL: Token := 5
  const TKN_ADD_OP: Token := 6
  const TKN_AND_OP: Token := 7
  const TKN_BITWISE_AND: Token := 8
  const TKN_BITWISE_NOT: Token := 9
  const TKN_BITWISE_OR: Token := 10
  const TKN_BITWISE_XOR: Token := 11
  const TKN_DEC_OP: Token := 12
  const TKN_DIV_OP: Token := 13
  const TKN_EQ_OP: Token := 14
  const TKN_GE_OP: Token := 15
  const TKN_GT_OP: Token := 16
  const TKN_INC_OP: Token := 17
  const TKN_LEFT_OP: Token := 18
  const TKN_LE_OP: Token := 19
  const TKN_LT_OP: Token := 20
  const TKN_MAPTO: Token := 21
  const TKN_MOD_OP: Token := 22
  const TKN_MUL_OP: Token := 23
  const TKN_NE_OP: Token := 24
  const TKN_NOT_OP: Token := 25
  const TKN_OR_OP: Token := 26
  const TKN_RIGHT_OP: Token := 27
  const TKN_SUB_OP: Token := 28
  const TKN_ASSIGN: Token := 29
  const TKN_ADD_ASSIGN: Token := 30
  const TKN_AND_ASSIGN: Token := 31
  const TKN_DEF_ASSIGN: Token := 32
  const TKN_DIV_ASSIGN: Token := 33
  const TKN_LEFT_ASSIGN: Token := 34
  const TKN_MOD_ASSIGN: Token := 35
  const TKN_MUL_ASSIGN: Token := 36
  const TKN_OR_ASSIGN: Token := 37
  const TKN_RIGHT_ASSIGN: Token := 38
  const TKN_SUB_ASSIGN: Token := 39
  const TKN_XOR_ASSIGN: Token := 40
  const TKN_COMMA: Token := 41
  const TKN_COLON: Token := 42
  const TKN_ELLIPSIS: Token := 43
  const TKN_HASH: Token := 44
  const TKN_LBRACE: Token := 45
  const TKN_LBRACK: Token := 46
  const TKN_LPAREN: Token := 47
  const TKN_PERIOD: Token := 48
  const TKN_QUESTION: Token := 49
  const TKN_RBRACE: Token := 50
  const TKN_RBRACK: Token := 51
  const TKN_RPAREN: Token := 52
  const TKN_SEMICOLON: Token := 53
  const TKN_ALIGNAS: Token := 54
  const TKN_ATOMIC: Token := 55
  const TKN_BREAK: Token := 56
  const TKN_CASE: Token := 57
  const TKN_CONST: Token := 58
  const TKN_CONTINUE: Token := 59
  const TKN_DEFAULT: Token := 60
  const TKN_DO: Token := 61
  const TKN_ELSE: Token := 62
  const TKN_ENUM: Token := 63
  const TKN_EXTERN: Token := 64
  const TKN_FOR: Token := 65
  const TKN_FUNC: Token := 66
  const TKN_GOTO: Token := 67
  const TKN_IF: Token := 68
  const TKN_IMPORT: Token := 69
  const TKN_INLINE: Token := 70
  const TKN_INTERFACE: Token := 71
  const TKN_NEW: Token := 72
  const TKN_FREE: Token := 73
  const TKN_MAKE: Token := 74
  const TKN_LEN: Token := 75
  const TKN_CAP: Token := 76
  const TKN_PACKAGE: Token := 77
  const TKN_DISPOSE: Token := 78
  const TKN_RETURN: Token := 79
  const TKN_SIZEOF: Token := 80
  const TKN_STATIC: Token := 81
  const TKN_STRUCT: Token := 82
  const TKN_SWITCH: Token := 83
  const TKN_TYPE: Token := 84
  const TKN_TYPEDEF: Token := 85
  const TKN_UNION: Token := 86
  const TKN_VAR: Token := 87
  const TKN_VOID: Token := 88
  const TKN_VOLATILE: Token := 89
  const TKN_WHILE: Token := 90
  const TKN_YIELD: Token := 91

  function SymbolName(t: int): string {
    match t
    case 6 => "+"
    case 7 => "&&"
    case 8 => "&"
    case 9 => "~"
    case 10 => "|"
    case 11 => "^"
    case 12 => "--"
    case 13 => "/"
    case 14 => "="
    case 15 => ">="
    case 16 => ">"
    case 17 => "++"
    case 18 => "<<"
    case 19 => "<="
    case 20 => "<"
    case 21 => "->"
    case 22 => "%"
    case 23 => "*"
    case 24 => "!="
    case 25 => "!"
    case 26 => "||"
    case 27 => ">>"
    case 28 => "-"
    case 29 => "="
    case 30 => "+="
    case 31 => "&="
    case 32 => ":="
    case 33 => "/="
    case 34 => "<<="
    case 35 => "%="
    case 36 => "*="
    case 37 => "|="
    case 38 => ">>="
    case 39 => "-="
    case 40 => "^="
    case 41 => ","
    case 42 => ":"
    case 43 => "..."
    case 44 => "#"
    case 45 => "{"
    case 46 => "["
    case 47 => "("
    case 48 => "."
    case 49 => "?"
    case 50 => "}"
    case 51 => "]"
    case 52 => ")"
    case 53 => ";"
    case _ => ""
  }

  function KeywordName(t: int): string {
    match t
    case 54 => "alignas"
    case 55 => "atomic"
    case 56 => "break"
    case 57 => "case"
    case 58 => "const"
    case 59 => "continue"
    case 60 => "default"
    case 61 => "do"
    case 62 => "else"
    case 63 => "enum"
    case 64 => "extern"
    case 65 => "for"
    case 66 => "func"
    case 67 => "goto"
    case 68 => "if"
    case 69 => "import"
    case 70 => "inline"
    case 71 => "interface"
    case 72 => "new"
    case 73 => "free"
    case 74 => "make"
    case 75 => "len"
    case 76 => "cap"
    case 77 => "package"
    case 78 => "dispose"
    case 79 => "return"
    case 80 => "sizeof"
    case 81 => "static"
    case 82 => "struct"
    case 83 => "switch"
    case 84 => "type"
    case 85 => "typedef"
    case 86 => "union"
    case 87 => "var"
    case 88 => "void"
    case 89 => "volatile"
    case 90 => "while"
    case 91 => "yield"
    case _ => ""
  }

  /** The names of the tokens, by their numbers in the token list. */
  function TokenName(t: int): string {
    if t == TKN_IDENT then "identifier"
    else if t == TKN_NUMBER_LITERAL then "number literal"
    else if t == TKN_STRING_LITERAL then "string literal"
    else if t < TKN_ALIGNAS then SymbolName(t)
    else KeywordName(t)
  }
}
