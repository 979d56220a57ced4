/** Outbound text as the server's broadcast receives it, and the newline
    normalisation applied to it before it is written to any client. */
module Outbound {

  /** A C# `string`, which may be `null`. */
  datatype Text = Null | Str(chars: string)

  /** True when `s` is non-empty and its last character is the line terminator. */
  predicate EndsWithNewline(s: string) {
    |s| > 0 && s[|s| - 1] == '\n'
  }

  /** The text actually sent by `sendData`: one '\n' is appended to a
      non-null, non-empty text whose last character is not already '\n';
      anything else (null, the empty string, a terminated line) is sent as it is. */
  function Normalise(data: Text): (r: Text)
    // null stays null and a string stays a string
    ensures r.Null? <==> data.Null?
    // the only possible edit is one appended terminator
    ensures data.Str? ==> r.chars == data.chars || r.chars == data.chars + "\n"
    // a string that is empty or already terminated is left untouched
    ensures data.Str? && (data.chars == "" || EndsWithNewline(data.chars)) ==> r == data
    // every non-empty result is terminated
    ensures r.Str? && r.chars != "" ==> EndsWithNewline(r.chars)
  {
    if data.Str? && |data.chars| > 0 && data.chars[|data.chars| - 1] != '\n' then
      Str(data.chars + "\n")
    else
      data
  }

  /** Normalising twice is normalising once. */
  lemma NormaliseIdempotent(data: Text)
    ensures Normalise(Normalise(data)) == Normalise(data)
  {
  }

  /** A non-empty unterminated text and the same text with its terminator
      are sent as the same characters (so "ping" and "ping\n" reach the wire
      identically). */
  lemma TerminatorAbsorbed(s: string)
    requires s != "" && !EndsWithNewline(s)
    ensures Normalise(Str(s)) == Normalise(Str(s + "\n")) == Str(s + "\n")
  {
    assert EndsWithNewline(s + "\n");
  }

  /** The empty string is the exception: it is not given a terminator, so it
      differs from "\n" after normalisation. */
  lemma EmptyNotTerminated()
    ensures Normalise(Str("")) == Str("")
    ensures Normalise(Str("")) != Normalise(Str("\n"))
  {
  }
}
