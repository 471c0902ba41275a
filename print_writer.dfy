// The character stream the sink writes to, and the shape of its contents: a
// sequence of records, each one JSON text followed by one line separator.

module PrintWriting {

  /** The text of `records` written one after another, each followed by `separator`. */
  function Framed(records: seq<string>, separator: string): string {
    if records == [] then [] else records[0] + separator + Framed(records[1..], separator)
  }

  /** Framing distributes over concatenation of record sequences. */
  lemma {:induction false} FramedConcat(a: seq<string>, b: seq<string>, separator: string)
    ensures Framed(a + b, separator) == Framed(a, separator) + Framed(b, separator)
  {
    if a == [] {
      assert a + b == b;
    } else {
      assert (a + b)[0] == a[0];
      assert (a + b)[1..] == a[1..] + b;
      FramedConcat(a[1..], b, separator);
    }
  }

  /** Appending one record appends exactly its text and one separator, and
      leaves the text of the earlier records as it was. */
  lemma FramedAppend(records: seq<string>, r: string, separator: string)
    ensures Framed(records + [r], separator) == Framed(records, separator) + r + separator
  {
    FramedConcat(records, [r], separator);
    assert [r][1..] == [];
  }

  /** Record i sits at offset |Framed(records[..i])| of the text and is
      followed by exactly one separator: a reader that knows the records'
      lengths finds each of them, in order, where it was written. */
  lemma RecordAt(records: seq<string>, separator: string, i: int)
    requires 0 <= i < |records|
    ensures var start, text := |Framed(records[..i], separator)|, Framed(records, separator);
            && start + |records[i]| + |separator| <= |text|
            && text[start..start + |records[i]|] == records[i]
            && text[start + |records[i]|..start + |records[i]| + |separator|] == separator
  {
    var rest := records[i + 1..];
    assert records == records[..i] + ([records[i]] + rest);
    FramedConcat(records[..i], [records[i]] + rest, separator);
    FramedConcat([records[i]], rest, separator);
    assert [records[i]][1..] == [];
    var text := Framed(records, separator);
    var start := |Framed(records[..i], separator)|;
    assert text == Framed(records[..i], separator) + (records[i] + separator + Framed(rest, separator));
    assert text[start..] == records[i] + separator + Framed(rest, separator);
  }

  /** java.io.PrintWriter as the sink uses it: characters accepted by write
      and println, and the prefix of them handed on to the underlying stream
      by flush. */
  class PrintWriter {
    const lineSeparator: string
    var text: string
    var delivered: nat

    constructor (lineSeparator: string)
      ensures this.lineSeparator == lineSeparator && text == [] && delivered == 0
    {
      this.lineSeparator := lineSeparator;
      text := [];
      delivered := 0;
    }

    method Write(s: string)
      modifies this
      ensures text == old(text) + s && delivered == old(delivered)
    {
      text := text + s;
    }

    method Println()
      modifies this
      ensures text == old(text) + lineSeparator && delivered == old(delivered)
    {
      text := text + lineSeparator;
    }

    method Flush()
      modifies this
      ensures text == old(text) && delivered == |text|
    {
      delivered := |text|;
    }
  }
}
