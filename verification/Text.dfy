/** Text helpers shared by the crawler model: trimming, whitespace removal and
    the small alphabets the crawler's own text rules are written over. Only the
    ASCII white space characters are known here. */
module Text {

  datatype Option<+T> = None | Some(value: T)

  predicate IsSpace(c: char) {
    c == ' ' || '\t' <= c <= '\r'
  }

  function StripLeft(s: string): string {
    if s != [] && IsSpace(s[0]) then StripLeft(s[1..]) else s
  }

  function StripRight(s: string): string {
    if s != [] && IsSpace(s[|s| - 1]) then StripRight(s[..|s| - 1]) else s
  }

  /** Trim on both sides. */
  function Strip(s: string): string {
    StripRight(StripLeft(s))
  }

  lemma {:induction false} StripLeftStarts(s: string)
    ensures StripLeft(s) == [] || !IsSpace(StripLeft(s)[0])
  {
    if s != [] && IsSpace(s[0]) {
      StripLeftStarts(s[1..]);
    }
  }

  lemma {:induction false} StripRightEnds(s: string)
    ensures StripRight(s) <= s
    ensures StripRight(s) == [] || !IsSpace(StripRight(s)[|StripRight(s)| - 1])
  {
    if s != [] && IsSpace(s[|s| - 1]) {
      StripRightEnds(s[..|s| - 1]);
    }
  }

  /** Trimming is idempotent. */
  lemma StripTwice(s: string)
    ensures Strip(Strip(s)) == Strip(s)
  {
    StripLeftStarts(s);
    StripRightEnds(StripLeft(s));
    var t := Strip(s);
    assert t != [] ==> t[0] == StripLeft(s)[0];
    assert StripLeft(t) == t;
    assert StripRight(t) == t;
  }

  lemma StripKeeps(s: string)
    requires s == [] || (!IsSpace(s[0]) && !IsSpace(s[|s| - 1]))
    ensures Strip(s) == s
  {
  }

  /** Drop every white space character. */
  function Compact(s: string): string {
    if s == [] then []
    else if IsSpace(s[0]) then Compact(s[1..])
    else [s[0]] + Compact(s[1..])
  }

  /** Keep ASCII letters, digits and the hyphen. */
  function KeepIdentifierChars(s: string): string {
    if s == [] then []
    else if IsIdentifierChar(s[0]) then [s[0]] + KeepIdentifierChars(s[1..])
    else KeepIdentifierChars(s[1..])
  }

  predicate IsIdentifierChar(c: char) {
    '0' <= c <= '9' || 'A' <= c <= 'Z' || 'a' <= c <= 'z' || c == '-'
  }

  function Lower(s: string): string {
    if s == [] then []
    else [if 'A' <= s[0] <= 'Z' then s[0] - 'A' + 'a' else s[0]] + Lower(s[1..])
  }

  /** Substring test. */
  predicate Contains(hay: string, needle: string) {
    |needle| <= |hay| && (needle <= hay || (hay != [] && Contains(hay[1..], needle)))
  }

  predicate AllLowerHex(s: string) {
    forall c | c in s :: '0' <= c <= '9' || 'a' <= c <= 'f'
  }
}
