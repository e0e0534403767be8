/** The clipboard text rule of the sender: text is sent only when it is
    non-empty and does not consist of whitespace alone, where whitespace and
    stripping follow Python's `str.isspace` and `str.strip()`. */
module Clipboard {

  /** Python's `str.isspace` for one character: the control separators, the
      ASCII blank, and the Unicode space characters. */
  predicate IsSpace(c: char) {
    var n := c as int;
    || 0x09 <= n <= 0x0D
    || 0x1C <= n <= 0x20
    || n == 0x85 || n == 0xA0 || n == 0x1680
    || 0x2000 <= n <= 0x200A
    || n == 0x2028 || n == 0x2029 || n == 0x202F || n == 0x205F || n == 0x3000
  }

  /** Drops the leading whitespace: the result is the suffix that starts at the
      first non-whitespace character. */
  function TrimStart(t: string): (r: string)
    ensures |r| <= |t| && r == t[|t| - |r|..]
    ensures forall i :: 0 <= i < |t| - |r| ==> IsSpace(t[i])
    ensures r == [] || !IsSpace(r[0])
  {
    if t != [] && IsSpace(t[0]) then TrimStart(t[1..]) else t
  }

  /** Drops the trailing whitespace: the result is the prefix that ends at the
      last non-whitespace character. */
  function TrimEnd(t: string): (r: string)
    ensures |r| <= |t| && r == t[..|r|]
    ensures forall i :: |r| <= i < |t| ==> IsSpace(t[i])
    ensures r == [] || !IsSpace(r[|r| - 1])
  {
    if t != [] && IsSpace(t[|t| - 1]) then TrimEnd(t[..|t| - 1]) else t
  }

  /** Python's `str.strip()` with no argument. */
  function Strip(t: string): string {
    TrimEnd(TrimStart(t))
  }

  /** The sender's test on the pasted text: non-empty, and non-empty once stripped. */
  predicate IsSendable(text: string) {
    text != [] && Strip(text) != []
  }

  /** Text is sendable exactly when some character of it is not whitespace. */
  lemma SendableIff(text: string)
    ensures IsSendable(text) <==> exists i :: 0 <= i < |text| && !IsSpace(text[i])
  {
  }
}
