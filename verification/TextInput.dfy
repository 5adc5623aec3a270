/** The character input both serializers read: a std::istream over a text. */
module TextInput {
  import opened Wrappers

  class Input {
    var rest: string
    var good: bool

    /** Once a read has met the end nothing is left. */
    predicate Valid()
      reads this
    {
      !good ==> rest == ""
    }

    constructor (text: string)
      ensures Valid() && good && rest == text
    {
      rest, good := text, true;
    }

    method Get() returns (c: Option<char>)
      requires Valid()
      modifies this
      ensures Valid()
      ensures old(rest) != "" ==> c == Some(old(rest)[0]) && rest == old(rest)[1..] && good == old(good)
      ensures old(rest) == "" ==> c == None && rest == "" && !good
    {
      if !good || rest == "" {
        good := false;
        return None;
      }
      c := Some(rest[0]);
      rest := rest[1..];
    }

    /** Looking past the end already ends the stream. */
    method Peek() returns (c: Option<char>)
      requires Valid()
      modifies this`good
      ensures Valid()
      ensures c == if rest == "" then None else Some(rest[0])
      ensures good == (old(good) && rest != "")
    {
      if !good || rest == "" {
        good := false;
        return None;
      }
      return Some(rest[0]);
    }
  }
}
