/** convert_to_text.py: turn the knowledge-base document (categories, each
    with a list of entries) into the flat text the knowledge base ingests.

  The document is the parsed JSON object as an ordered list of
  (category, entries) pairs.  The output is what the `print` calls write
  to standard output; `print(x)` writes `x` followed by a line break.
 */
module KnowledgeExport {
  import opened Outcomes
  import Text

  /** One element of a category's list: a string, or any other JSON value. */
  datatype Entry = TextEntry(s: string) | OtherEntry

  type Document = seq<(string, seq<Entry>)>

  const Usage: string := "Usage: python convert_to_text.py input.json > output.txt"

  /** `print(x)`. */
  function Print(x: string): string {
    x + "\n"
  }

  /** `content.replace('**', '').replace('*', '')`. */
  function Clean(s: string): string {
    Text.Delete(Text.Delete(s, "**"), "*")
  }

  lemma {:induction false} DeleteStar(s: string)
    ensures Text.Delete(s, "*") == Text.Without(s, '*')
    decreases |s|
  {
    if |s| > 0 {
      DeleteStar(s[1..]);
      assert Text.StartsWith(s, "*") <==> s[0] == '*';
    }
  }

  lemma {:induction false} DeleteDoubleStarKeepsOthers(s: string)
    ensures Text.Without(Text.Delete(s, "**"), '*') == Text.Without(s, '*')
    decreases |s|
  {
    if |s| > 0 {
      if Text.StartsWith(s, "**") {
        DeleteDoubleStarKeepsOthers(s[2..]);
        assert s[..2] == "**";
        assert s[0] == s[..2][0] && s[1] == s[..2][1];
        assert Text.Delete(s, "**") == Text.Delete(s[2..], "**");
        DropTwoStars(s);
      } else {
        DeleteDoubleStarKeepsOthers(s[1..]);
        var rest := Text.Delete(s[1..], "**");
        assert Text.Delete(s, "**") == [s[0]] + rest;
        WithoutCons(s[0], rest, '*');
        WithoutCons(s[0], s[1..], '*');
        assert [s[0]] + s[1..] == s;
      }
    }
  }

  lemma DropTwoStars(s: string)
    requires |s| >= 2 && s[0] == '*' && s[1] == '*'
    ensures Text.Without(s, '*') == Text.Without(s[2..], '*')
  {
    WithoutCons(s[0], s[1..], '*');
    WithoutCons(s[1], s[2..], '*');
    assert [s[0]] + s[1..] == s;
    assert [s[1]] + s[2..] == s[1..];
  }

  lemma WithoutCons(c: char, t: string, d: char)
    ensures Text.Without([c] + t, d) == if c == d then Text.Without(t, d) else [c] + Text.Without(t, d)
  {
    assert ([c] + t)[1..] == t;
  }

  /** The two-step replace deletes every asterisk and keeps every other
      character in order. */
  lemma CleanDeletesAsterisks(s: string)
    ensures Clean(s) == Text.Without(s, '*')
    ensures '*' !in Clean(s)
  {
    DeleteStar(Text.Delete(s, "**"));
    DeleteDoubleStarKeepsOthers(s);
  }

  /** Cleaning a cleaned entry changes nothing. */
  lemma CleanIdempotent(s: string)
    ensures Clean(Clean(s)) == Clean(s)
  {
    CleanDeletesAsterisks(s);
    CleanDeletesAsterisks(Clean(s));
    Text.WithoutAbsent(Clean(s), '*');
  }

  predicate AllText(entries: seq<Entry>) {
    forall i :: 0 <= i < |entries| ==> entries[i].TextEntry?
  }

  /** The output written so far, and whether an entry that is not a string
      stopped the script (`AttributeError` on `replace`). */
  datatype Output = Output(text: string, crashed: bool)

  function PrintEntries(entries: seq<Entry>): (r: Output)
    ensures r.crashed <==> !AllText(entries)
    decreases |entries|
  {
    if |entries| == 0 then Output("", false)
    else
      match entries[0]
      case OtherEntry => Output("", true)
      case TextEntry(s) =>
        var rest := PrintEntries(entries[1..]);
        Output(Print(Clean(s)) + Print("\n---\n") + rest.text, rest.crashed)
  }

  /** `convert_json_to_text` once the file is loaded. */
  function ConvertDocument(doc: Document): (r: Output)
    ensures r.crashed <==> exists k :: 0 <= k < |doc| && !AllText(doc[k].1)
    decreases |doc|
  {
    if |doc| == 0 then Output("", false)
    else
      var header := Print("\n### " + doc[0].0 + "\n");
      var entries := PrintEntries(doc[0].1);
      if entries.crashed then Output(header + entries.text, true)
      else
        var rest := ConvertDocument(doc[1..]);
        Output(header + entries.text + rest.text, rest.crashed)
  }

  // ---------------------------------------------------------------------
  // The output as lines

  /** Each line followed by a line break. */
  function Terminated(lines: seq<string>): string
    decreases |lines|
  {
    if |lines| == 0 then "" else lines[0] + "\n" + Terminated(lines[1..])
  }

  lemma {:induction false} TerminatedAppend(a: seq<string>, b: seq<string>)
    ensures Terminated(a + b) == Terminated(a) + Terminated(b)
    decreases |a|
  {
    if |a| == 0 {
      assert a + b == b;
    } else {
      assert (a + b)[1..] == a[1..] + b;
      TerminatedAppend(a[1..], b);
    }
  }

  /** Splitting line-terminated text at line breaks gives the lines back
      (and the empty remainder after the last break). */
  lemma {:induction false} SplitTerminated(lines: seq<string>)
    requires forall i :: 0 <= i < |lines| ==> '\n' !in lines[i]
    ensures Text.Split(Terminated(lines), '\n') == lines + [""]
    decreases |lines|
  {
    if |lines| > 0 {
      SplitTerminated(lines[1..]);
      Text.SplitAround(lines[0], '\n', Terminated(lines[1..]));
      Text.SplitFree(lines[0], '\n');
      assert lines[0] + "\n" + Terminated(lines[1..]) == lines[0] + ['\n'] + Terminated(lines[1..]);
      assert [lines[0]] + (lines[1..] + [""]) == lines + [""];
    }
  }

  /** The lines one entry produces: its cleaned text, a blank line, the
      `---` separator and another blank line. */
  function EntryLines(entries: seq<Entry>): seq<string>
    requires AllText(entries)
    decreases |entries|
  {
    if |entries| == 0 then []
    else [Clean(entries[0].s), "", "---", ""] + EntryLines(entries[1..])
  }

  /** The lines of a document whose entries are all strings: per category a
      blank line, the `### ` heading and a blank line, then its entries. */
  function DocumentLines(doc: Document): seq<string>
    requires forall k :: 0 <= k < |doc| ==> AllText(doc[k].1)
    decreases |doc|
  {
    if |doc| == 0 then []
    else ["", "### " + doc[0].0, ""] + EntryLines(doc[0].1) + DocumentLines(doc[1..])
  }

  lemma {:induction false} PrintEntriesLines(entries: seq<Entry>)
    requires AllText(entries)
    ensures PrintEntries(entries) == Output(Terminated(EntryLines(entries)), false)
    decreases |entries|
  {
    if |entries| > 0 {
      PrintEntriesLines(entries[1..]);
      var head := [Clean(entries[0].s), "", "---", ""];
      TerminatedAppend(head, EntryLines(entries[1..]));
      TerminatedFour(Clean(entries[0].s), "", "---", "");
    }
  }

  /** The printed text is exactly the document's lines, each ended by a line
      break, and the script does not stop early. */
  lemma {:induction false} ConvertDocumentLines(doc: Document)
    requires forall k :: 0 <= k < |doc| ==> AllText(doc[k].1)
    ensures ConvertDocument(doc) == Output(Terminated(DocumentLines(doc)), false)
    decreases |doc|
  {
    if |doc| > 0 {
      PrintEntriesLines(doc[0].1);
      ConvertDocumentLines(doc[1..]);
      var head := ["", "### " + doc[0].0, ""];
      TerminatedAppend(head + EntryLines(doc[0].1), DocumentLines(doc[1..]));
      TerminatedAppend(head, EntryLines(doc[0].1));
      TerminatedThree("", "### " + doc[0].0, "");
      var header := Print("\n### " + doc[0].0 + "\n");
      assert Terminated(head) == header;
      var entries := PrintEntries(doc[0].1);
      var rest := ConvertDocument(doc[1..]);
      assert !entries.crashed;
      assert ConvertDocument(doc).text == header + entries.text + rest.text;
      assert Terminated(DocumentLines(doc)) == Terminated(head) + Terminated(EntryLines(doc[0].1)) + Terminated(DocumentLines(doc[1..]));
    }
  }

  lemma TerminatedThree(a: string, b: string, c: string)
    ensures Terminated([a, b, c]) == a + "\n" + b + "\n" + c + "\n"
  {
    assert [a, b, c][1..] == [b, c];
    assert [b, c][1..] == [c];
    assert [c][1..] == [];
    assert Terminated([c]) == c + "\n";
  }

  lemma TerminatedFour(a: string, b: string, c: string, d: string)
    ensures Terminated([a, b, c, d]) == a + "\n" + b + "\n" + c + "\n" + d + "\n"
  {
    assert [a, b, c, d][1..] == [b, c, d];
    TerminatedThree(b, c, d);
  }

  /** Number of lines equal to `line`. */
  function CountLine(lines: seq<string>, line: string): nat
    decreases |lines|
  {
    if |lines| == 0 then 0 else (if lines[0] == line then 1 else 0) + CountLine(lines[1..], line)
  }

  lemma {:induction false} CountLineAppend(a: seq<string>, b: seq<string>, line: string)
    ensures CountLine(a + b, line) == CountLine(a, line) + CountLine(b, line)
    decreases |a|
  {
    if |a| == 0 {
      assert a + b == b;
    } else {
      assert (a + b)[1..] == a[1..] + b;
      CountLineAppend(a[1..], b, line);
    }
  }

  function TotalEntries(doc: Document): nat
    decreases |doc|
  {
    if |doc| == 0 then 0 else |doc[0].1| + TotalEntries(doc[1..])
  }

  /** No string entry cleans to the separator text itself. */
  predicate NoSeparatorEntry(entries: seq<Entry>) {
    forall i :: 0 <= i < |entries| && entries[i].TextEntry? ==> Clean(entries[i].s) != "---"
  }

  lemma {:induction false} EntrySeparators(entries: seq<Entry>)
    requires AllText(entries) && NoSeparatorEntry(entries)
    ensures CountLine(EntryLines(entries), "---") == |entries|
    decreases |entries|
  {
    if |entries| > 0 {
      EntrySeparators(entries[1..]);
      var head := [Clean(entries[0].s), "", "---", ""];
      CountLineAppend(head, EntryLines(entries[1..]), "---");
      assert Clean(entries[0].s) != "---";
      assert CountLine(head[3..], "---") == 0;
      assert head[2..][1..] == head[3..];
      assert CountLine(head[2..], "---") == 1;
      assert head[1..][1..] == head[2..];
      assert CountLine(head[1..], "---") == 1;
    }
  }

  /** Every entry is followed by exactly one separator line: unless an
      entry's own text is `---`, the lines passed to `print` (before any
      line break inside a category name or an entry splits them) hold as
      many separator lines as the document has entries. */
  lemma {:induction false} SeparatorPerEntry(doc: Document)
    requires forall k :: 0 <= k < |doc| ==> AllText(doc[k].1) && NoSeparatorEntry(doc[k].1)
    ensures CountLine(DocumentLines(doc), "---") == TotalEntries(doc)
    decreases |doc|
  {
    if |doc| > 0 {
      EntrySeparators(doc[0].1);
      SeparatorPerEntry(doc[1..]);
      var head := ["", "### " + doc[0].0, ""];
      assert ("### " + doc[0].0)[..4] == "### ";
      CountLineAppend(head + EntryLines(doc[0].1), DocumentLines(doc[1..]), "---");
      CountLineAppend(head, EntryLines(doc[0].1), "---");
      assert CountLine(head[2..], "---") == 0;
      assert head[1..][1..] == head[2..];
      assert CountLine(head[1..], "---") == 0;
    }
  }

  /** No category name and no string entry holds a line break. */
  predicate SingleLines(doc: Document) {
    forall k :: 0 <= k < |doc| ==>
      '\n' !in doc[k].0 &&
      forall i :: 0 <= i < |doc[k].1| && doc[k].1[i].TextEntry? ==> '\n' !in doc[k].1[i].s
  }

  lemma {:induction false} EntryLinesSingle(entries: seq<Entry>)
    requires AllText(entries)
    requires forall i :: 0 <= i < |entries| ==> '\n' !in entries[i].s
    ensures forall i :: 0 <= i < |EntryLines(entries)| ==> '\n' !in EntryLines(entries)[i]
    decreases |entries|
  {
    if |entries| > 0 {
      CleanDeletesAsterisks(entries[0].s);
      Text.WithoutFree(entries[0].s, '*', '\n');
      EntryLinesSingle(entries[1..]);
    }
  }

  lemma {:induction false} DocumentLinesSingle(doc: Document)
    requires forall k :: 0 <= k < |doc| ==> AllText(doc[k].1)
    requires SingleLines(doc)
    ensures forall i :: 0 <= i < |DocumentLines(doc)| ==> '\n' !in DocumentLines(doc)[i]
    decreases |doc|
  {
    if |doc| > 0 {
      EntryLinesSingle(doc[0].1);
      assert SingleLines(doc[1..]) by {
        forall k | 0 <= k < |doc[1..]| ensures '\n' !in doc[1..][k].0 {
          assert doc[1..][k] == doc[k + 1];
        }
      }
      DocumentLinesSingle(doc[1..]);
      var head := ["", "### " + doc[0].0, ""];
      var lines := head + EntryLines(doc[0].1) + DocumentLines(doc[1..]);
      forall i | 0 <= i < |lines| ensures '\n' !in lines[i] {
        if i < 3 {
        } else if i < 3 + |EntryLines(doc[0].1)| {
          assert lines[i] == EntryLines(doc[0].1)[i - 3];
        } else {
          assert lines[i] == DocumentLines(doc[1..])[i - 3 - |EntryLines(doc[0].1)|];
        }
      }
    }
  }

  /** When no category name or entry holds a line break of its own, the
      printed output, split into lines, holds exactly one `---` line per
      entry (again unless an entry cleans to `---`). */
  lemma PrintedSeparators(doc: Document)
    requires forall k :: 0 <= k < |doc| ==> AllText(doc[k].1) && NoSeparatorEntry(doc[k].1)
    requires SingleLines(doc)
    ensures !ConvertDocument(doc).crashed
    ensures CountLine(Text.Split(ConvertDocument(doc).text, '\n'), "---") == TotalEntries(doc)
  {
    ConvertDocumentLines(doc);
    DocumentLinesSingle(doc);
    SplitTerminated(DocumentLines(doc));
    CountLineAppend(DocumentLines(doc), [""], "---");
    SeparatorPerEntry(doc);
  }

  /** A category with no entries writes its heading and nothing else. */
  lemma EmptyCategory(category: string, rest: Document)
    ensures ConvertDocument([(category, [])] + rest).text
      == "\n### " + category + "\n\n" + ConvertDocument(rest).text
  {
    assert ([(category, [])] + rest)[1..] == rest;
  }

  /** The output carries no asterisk that a category name does not bring. */
  lemma {:induction false} NoAsteriskFromEntries(doc: Document)
    requires forall k :: 0 <= k < |doc| ==> AllText(doc[k].1) && '*' !in doc[k].0
    ensures '*' !in ConvertDocument(doc).text
    decreases |doc|
  {
    ConvertDocumentLines(doc);
    LinesWithoutAsterisk(doc);
    TerminatedFree(DocumentLines(doc), '*');
  }

  lemma {:induction false} EntryLinesWithoutAsterisk(entries: seq<Entry>)
    requires AllText(entries)
    ensures forall i :: 0 <= i < |EntryLines(entries)| ==> '*' !in EntryLines(entries)[i]
    decreases |entries|
  {
    if |entries| > 0 {
      CleanDeletesAsterisks(entries[0].s);
      EntryLinesWithoutAsterisk(entries[1..]);
    }
  }

  lemma {:induction false} LinesWithoutAsterisk(doc: Document)
    requires forall k :: 0 <= k < |doc| ==> AllText(doc[k].1) && '*' !in doc[k].0
    ensures forall i :: 0 <= i < |DocumentLines(doc)| ==> '*' !in DocumentLines(doc)[i]
    decreases |doc|
  {
    if |doc| > 0 {
      EntryLinesWithoutAsterisk(doc[0].1);
      LinesWithoutAsterisk(doc[1..]);
      var head := ["", "### " + doc[0].0, ""];
      var lines := head + EntryLines(doc[0].1) + DocumentLines(doc[1..]);
      forall i | 0 <= i < |lines| ensures '*' !in lines[i] {
        if i < 3 {
        } else if i < 3 + |EntryLines(doc[0].1)| {
          assert lines[i] == EntryLines(doc[0].1)[i - 3];
        } else {
          assert lines[i] == DocumentLines(doc[1..])[i - 3 - |EntryLines(doc[0].1)|];
        }
      }
    }
  }

  lemma {:induction false} TerminatedFree(lines: seq<string>, c: char)
    requires c != '\n'
    requires forall i :: 0 <= i < |lines| ==> c !in lines[i]
    ensures c !in Terminated(lines)
    decreases |lines|
  {
    if |lines| > 0 {
      TerminatedFree(lines[1..], c);
    }
  }

  // ---------------------------------------------------------------------
  // The script

  /** The loaded input file: the document, or a failure to open or parse it. */
  datatype Loaded = Loaded(doc: Document) | LoadFailed

  datatype Run = Run(stdout: string, exitCode: int)

  /** `python convert_to_text.py input.json`, with `argv` including the
      script name and `load` standing for opening and parsing the file. */
  function RunScript(argv: seq<string>, load: string -> Loaded): (r: Run)
    ensures |argv| != 2 ==> r == Run(Usage + "\n", 1)
    ensures |argv| == 2 && load(argv[1]).LoadFailed? ==> r == Run("", 1)
    ensures r.exitCode == 0 || r.exitCode == 1
    ensures |argv| == 2 && load(argv[1]).Loaded? ==>
      r.stdout == ConvertDocument(load(argv[1]).doc).text
    ensures r.exitCode == 0 <==> (|argv| == 2 && load(argv[1]).Loaded?
      && forall k :: 0 <= k < |load(argv[1]).doc| ==> AllText(load(argv[1]).doc[k].1))
  {
    if |argv| != 2 then Run(Print(Usage), 1)
    else
      match load(argv[1])
      case LoadFailed => Run("", 1)
      case Loaded(doc) =>
        var out := ConvertDocument(doc);
        Run(out.text, if out.crashed then 1 else 0)
  }
}
