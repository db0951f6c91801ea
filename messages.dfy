/** Messages sent through the message handler, recorded as an appended log. */
module Messages {

  /** A message sent through the message handler: its recipient and its text. */
  datatype Message = Message(recipient: string, text: string)

  /** Messages appended one, two and one at a time form one block of four. */
  lemma {:induction false} Appended<T>(log: seq<T>, a: T, b: T, c: T, d: T)
    ensures log + [a] + [b, c] + [d] == log + [a, b, c, d]
  {
    assert (log + [a] + [b, c] + [d])[|log|..] == [a, b, c, d];
  }
}
