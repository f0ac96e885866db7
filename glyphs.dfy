/**
 * The glyph spellings of the language, as the UTF-8 byte strings the lexer
 * sees (every char stands for one byte), and the glyph table of the parser
 * (Parser::initializeEmojiMappings, src/Parser.cpp:12-51).
 */
module Glyphs {

  const Decl := "\U{F0}\U{9F}\U{93}\U{A2}"          // 📢
  const Assign := "\U{F0}\U{9F}\U{98}\U{8C}"        // 😌
  const Comma := "\U{F0}\U{9F}\U{97}\U{BF}"         // 🗿
  const Semicolon := "\U{F0}\U{9F}\U{91}\U{84}"     // 👄
  const Print := "\U{F0}\U{9F}\U{96}\U{A8}"         // 🖨
  const OpenParen := "\U{F0}\U{9F}\U{91}\U{89}"     // 👉
  const CloseParen := "\U{F0}\U{9F}\U{91}\U{88}"    // 👈
  const OpenBrace := "\U{F0}\U{9F}\U{8D}\U{BD}"     // 🍽
  const CloseBrace := "\U{F0}\U{9F}\U{A5}\U{82}"    // 🥂
  const While := "\U{F0}\U{9F}\U{92}\U{BF}"         // 💿
  const For := "\U{F0}\U{9F}\U{93}\U{80}"           // 📀
  const If := "\U{F0}\U{9F}\U{9A}\U{A9}"            // 🚩
  const Elif := "\U{F0}\U{9F}\U{8F}\U{B3}"          // 🏳
  const Else := "\U{F0}\U{9F}\U{8F}\U{81}"          // 🏁
  const Break := "\U{E2}\U{8F}\U{B8}"               // ⏸
  const Continue := "\U{E2}\U{8F}\U{A9}"            // ⏩
  const True := "\U{E2}\U{9C}\U{94}"                // ✔
  const False := "\U{E2}\U{9D}\U{8C}"               // ❌
  const Plus := "\U{E2}\U{9E}\U{95}"                // ➕
  const Minus := "\U{E2}\U{9E}\U{96}"               // ➖
  const Times := "\U{E2}\U{9C}\U{96}"               // ✖
  const Divide := "\U{E2}\U{9E}\U{97}"              // ➗
  const Modulo := "\U{F0}\U{9F}\U{93}\U{8E}"        // 📎
  const Less := "\U{F0}\U{9F}\U{98}\U{AD}"          // 😭
  const Greater := "\U{F0}\U{9F}\U{98}\U{81}"       // 😁
  const GreaterEqual := "\U{F0}\U{9F}\U{98}\U{81}\U{F0}\U{9F}\U{98}\U{8C}"  // 😁😌
  const LessEqual := "\U{F0}\U{9F}\U{98}\U{AD}\U{F0}\U{9F}\U{98}\U{8C}"     // 😭😌
  const EqualEqual := "\U{F0}\U{9F}\U{98}\U{8C}\U{F0}\U{9F}\U{98}\U{8C}"    // 😌😌
  const NotEqual := "\U{E2}\U{9D}\U{97}\U{F0}\U{9F}\U{98}\U{8C}"            // ❗😌
  const BitAnd := "\U{E2}\U{9A}\U{9B}"              // ⚛
  const BitOr := "\U{E2}\U{98}\U{AF}"               // ☯
  const Xor := "\U{E2}\U{9A}\U{93}"                 // ⚓
  const And := "\U{F0}\U{9F}\U{98}\U{A0}"           // 😠
  const Or := "\U{F0}\U{9F}\U{98}\U{87}"            // 😇
  const Not := "\U{E2}\U{9D}\U{97}"                 // ❗
  const Tilde := "\U{E3}\U{80}\U{B0}"               // 〰

  /** The line-comment marker 💩 (bytes F0 9F 92 A9). */
  const Comment := "\U{F0}\U{9F}\U{92}\U{A9}"

  /**
   * The parser's glyph table, glyph to canonical spelling. The C++ table is
   * an unordered_map, which the lexer scans in an unspecified order; this
   * model fixes the order: longest glyph first.
   */
  const Table: seq<(string, string)> := [
    (GreaterEqual, ">="),
    (LessEqual, "<="),
    (EqualEqual, "=="),
    (NotEqual, "!="),
    (Decl, "decl"),
    (Assign, "="),
    (Comma, ","),
    (Semicolon, ";"),
    (Print, "print"),
    (OpenParen, "("),
    (CloseParen, ")"),
    (OpenBrace, "{"),
    (CloseBrace, "}"),
    (While, "while"),
    (For, "for"),
    (If, "if"),
    (Elif, "elif"),
    (Else, "else"),
    (Modulo, "%"),
    (Less, "<"),
    (Greater, ">"),
    (And, "and"),
    (Or, "or"),
    (Break, "break"),
    (Continue, "continue"),
    (True, "true"),
    (False, "false"),
    (Plus, "+"),
    (Minus, "-"),
    (Times, "*"),
    (Divide, "/"),
    (BitAnd, "&"),
    (BitOr, "|"),
    (Xor, "xor"),
    (Not, "!"),
    (Tilde, "~")
  ]

  /** Every glyph of the table is at least three bytes long, and the table is longest first. */
  lemma TableShape()
    ensures |Table| == 36
    ensures forall i :: 0 <= i < |Table| ==> |Table[i].0| >= 3
    ensures forall i :: 0 <= i < |Table| - 1 ==> |Table[i].0| >= |Table[i + 1].0|
  {
  }
}
