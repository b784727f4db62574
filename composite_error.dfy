/** An append-only collector of errors that is turned into one multi-line error message. */
module CompositeErrors {
  import opened Wrappers
  import Decimal

  /** One collected error. `time` is the clock reading taken when the error was added,
      already rendered as text (the model receives the clock as a parameter). */
  datatype ErrorEntry = ErrorEntry(id: int, description: string, time: string)

  /** The line an entry contributes to the message: "id, time: description" and a newline. */
  function Line(e: ErrorEntry): string {
    Decimal.IntToString(e.id) + ", " + e.time + ": " + e.description + "\n"
  }

  /** The message of a list of entries: their lines, in insertion order. */
  function Message(entries: seq<ErrorEntry>): string {
    if entries == [] then "" else Line(entries[0]) + Message(entries[1..])
  }

  /** Number of newline characters in a string. */
  function CountNewlines(s: string): nat {
    if s == [] then 0 else (if s[0] == '\n' then 1 else 0) + CountNewlines(s[1..])
  }

  /** An entry whose text parts hold no newline, so that it renders as exactly one line. */
  predicate SingleLine(e: ErrorEntry) {
    '\n' !in e.time && '\n' !in e.description
  }

  /** Adding an entry at the end adds its line at the end of the message. */
  lemma {:induction false} MessageAppend(entries: seq<ErrorEntry>, e: ErrorEntry)
    ensures Message(entries + [e]) == Message(entries) + Line(e)
  {
    if entries == [] {
      assert entries + [e] == [e];
      assert Message([e]) == Line(e) + Message([]);
    } else {
      assert (entries + [e])[1..] == entries[1..] + [e];
      MessageAppend(entries[1..], e);
    }
  }

  lemma {:induction false} CountNewlinesAppend(a: string, b: string)
    ensures CountNewlines(a + b) == CountNewlines(a) + CountNewlines(b)
  {
    if a != [] {
      assert (a + b)[1..] == a[1..] + b;
      CountNewlinesAppend(a[1..], b);
    } else {
      assert a + b == b;
    }
  }

  lemma {:induction false} CountNewlinesNone(s: string)
    requires '\n' !in s
    ensures CountNewlines(s) == 0
  {
    if s != [] {
      assert s[0] != '\n';
      assert forall c :: c in s[1..] ==> c in s;
      CountNewlinesNone(s[1..]);
    }
  }

  /** A message has one line per entry when the entries' texts hold no newline. */
  lemma {:induction false} MessageLineCount(entries: seq<ErrorEntry>)
    requires forall i :: 0 <= i < |entries| ==> SingleLine(entries[i])
    ensures CountNewlines(Message(entries)) == |entries|
  {
    if entries != [] {
      var e := entries[0];
      assert SingleLine(e);
      var id := Decimal.IntToString(e.id);
      assert '\n' !in id by {
        if e.id < 0 {
          assert id == "-" + Decimal.NatToString(-e.id);
        }
      }
      var prefix := id + ", " + e.time + ": " + e.description;
      assert '\n' !in prefix;
      CountNewlinesNone(prefix);
      CountNewlinesAppend(prefix, "\n");
      assert Line(e) == prefix + "\n";
      CountNewlinesAppend(Line(e), Message(entries[1..]));
      MessageLineCount(entries[1..]);
    }
  }

  /** The message of a nonempty list is nonempty: it ends with a newline. */
  lemma {:induction false} MessageNonEmpty(entries: seq<ErrorEntry>)
    requires entries != []
    ensures |Message(entries)| > 0 && Message(entries)[|Message(entries)| - 1] == '\n'
  {
    var front := entries[..|entries| - 1];
    assert entries == front + [entries[|entries| - 1]];
    MessageAppend(front, entries[|entries| - 1]);
  }

  /** The message of one more entry of a list extends the message of the entries before it. */
  lemma MessagePrefix(entries: seq<ErrorEntry>, i: nat)
    requires i < |entries|
    ensures Message(entries[..i + 1]) == Message(entries[..i]) + Line(entries[i])
  {
    assert entries[..i + 1] == entries[..i] + [entries[i]];
    MessageAppend(entries[..i], entries[i]);
  }

  /** Errors collected one by one; `Evaluate` reports all of them at once. */
  class CompositeError {
    var errorsList: seq<ErrorEntry>

    /** A new collector holds no errors. */
    constructor ()
      ensures errorsList == []
    {
      errorsList := [];
    }

    /** Appends one entry stamped with `now`; ids need not be unique. */
    method AddError(id: int, description: string, now: string)
      modifies this
      ensures errorsList == old(errorsList) + [ErrorEntry(id, description, now)]
    {
      errorsList := errorsList + [ErrorEntry(id, description, now)];
    }

    /** No error when nothing was collected; otherwise one error whose message has one line
        per entry, in insertion order. The list itself is left as it is. */
    method Evaluate() returns (err: Option<string>)
      ensures errorsList == [] <==> err.None?
      ensures err.Some? ==> err.value == Message(errorsList) && |err.value| > 0
    {
      var entries := errorsList;
      if |entries| != 0 {
        var buffer := "";
        var i := 0;
        while i < |entries|
          invariant 0 <= i <= |entries|
          invariant buffer == Message(entries[..i])
        {
          MessagePrefix(entries, i);
          buffer := buffer + Line(entries[i]);
          i := i + 1;
        }
        assert entries[..i] == entries;
        MessageNonEmpty(entries);
        err := Some(buffer);
      } else {
        err := None;
      }
    }
  }

  /** The message a fresh collector produces after adding `entries` in order (the pattern
      the validators use: collect, then evaluate). */
  function Evaluated(entries: seq<ErrorEntry>): (err: Option<string>)
    ensures err.None? <==> entries == []
  {
    if entries == [] then None else Some(Message(entries))
  }
}
