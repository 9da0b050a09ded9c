/** Content digests. SHA-256 is taken as an injective function: the stand-in renders the
    content itself, escaped so that a digest is a non-empty single line, as a
    hexadecimal digest is. Only these two facts about it are used. */
module Digests {

  function Escape(s: string): string {
    if s == "" then ""
    else if s[0] == '\n' then "\\n" + Escape(s[1..])
    else if s[0] == '\\' then "\\\\" + Escape(s[1..])
    else [s[0]] + Escape(s[1..])
  }

  function Digest(content: string): string {
    "sha256:" + Escape(content)
  }

  lemma {:induction false} EscapeInjective(a: string, b: string)
    requires Escape(a) == Escape(b)
    ensures a == b
  {
    if a != "" && b != "" {
      assert Escape(a)[0] == Escape(b)[0] && (a[0] in {'\n', '\\'} ==> Escape(a)[1] == Escape(b)[1]);
      assert a[0] == b[0];
      var k := if a[0] in {'\n', '\\'} then 2 else 1;
      assert Escape(a)[k..] == Escape(a[1..]) && Escape(b)[k..] == Escape(b[1..]);
      EscapeInjective(a[1..], b[1..]);
      assert a == [a[0]] + a[1..] && b == [b[0]] + b[1..];
    }
  }

  lemma DigestInjective(a: string, b: string)
    ensures Digest(a) == Digest(b) <==> a == b
  {
    if Digest(a) == Digest(b) {
      assert Digest(a)[7..] == Escape(a) && Digest(b)[7..] == Escape(b);
      EscapeInjective(a, b);
    }
  }

  lemma DigestIsOneLine(content: string)
    ensures '\n' !in Digest(content) && Digest(content) != ""
  {
    EscapeIsOneLine(content);
  }

  lemma EscapeIsOneLine(s: string)
    ensures '\n' !in Escape(s)
  {
  }
}
