/**
 * Shared data of the pipeline: the code snippet that the parsers extract,
 * the embedders annotate and the repository stores
 * (services/code-reviewer/internal/models/models.go,
 * internal/parser/models.go), the task names of the assistants
 * (internal/assistant/models.go), and the text block in which both
 * assistants present retrieved snippets to the language model.
 */
module Models {
  import opened Strings

  /** An embedding vector: the bit patterns of its float32 components, never inspected. */
  type Vector = seq<bv32>

  /**
   * `Snippet`. Only the embedding is ever written after construction (by the
   * embedders), so the other fields are constants.
   */
  class Snippet {
    const id: string
    const content: string
    const filename: string
    const language: string
    var embedding: Vector

    /** `NewSnippet`: the embedding starts out empty. */
    constructor (id: string, content: string, filename: string, language: string)
      ensures this.id == id && this.content == content
      ensures this.filename == filename && this.language == language
      ensures embedding == []
    {
      this.id := id;
      this.content := content;
      this.filename := filename;
      this.language := language;
      embedding := [];
    }
  }

  /** The value of a snippet's fields other than the embedding. */
  datatype Fields = Fields(id: string, content: string, filename: string, language: string)

  function FieldsOf(s: Snippet): Fields {
    Fields(s.id, s.content, s.filename, s.language)
  }

  function AllFields(snippets: seq<Snippet>): (r: seq<Fields>)
    ensures |r| == |snippets| && forall i :: 0 <= i < |snippets| ==> r[i] == FieldsOf(snippets[i])
  {
    if snippets == [] then [] else [FieldsOf(snippets[0])] + AllFields(snippets[1..])
  }

  lemma AllFieldsAppend(a: seq<Snippet>, b: seq<Snippet>)
    ensures AllFields(a + b) == AllFields(a) + AllFields(b)
  {
    var l := AllFields(a + b);
    var r := AllFields(a) + AllFields(b);
    forall i | 0 <= i < |l| ensures l[i] == r[i] {
      if i < |a| {
        assert (a + b)[i] == a[i];
      } else {
        assert (a + b)[i] == b[i - |a|];
      }
    }
  }

  function Objects(snippets: seq<Snippet>): set<Snippet> {
    set s | s in snippets
  }

  /** `Task`: a string naming what the assistant is asked to do. */
  type Task = string

  const TaskCodeGeneration: Task := "code_generation"
  const TaskCodeReview: Task := "code_review"
  const TaskCodeCompletion: Task := "code_completion"

  /** The three zero-shot prompt templates of the configuration, one per known task. */
  datatype Templates = Templates(codeReview: string, codeCompletion: string, codeGeneration: string)

  // ---- The context block given to the language model ----

  /** One retrieved snippet as the context block shows it. */
  datatype Entry = Entry(filename: string, content: string)

  /** The header line of block `i`: `--- Context Snippet %d from file %s ---`. */
  function Header(i: nat, filename: string): string {
    "--- Context Snippet " + Decimal(i) + " from file " + filename + " ---\n"
  }

  /** Block `i`: a header naming the snippet's number and file, the content, a blank line. */
  function Block(i: nat, e: Entry): string {
    Header(i, e.filename) + e.content + "\n\n"
  }

  /** The blocks of `entries`, numbered from `start`, in order. */
  function Blocks(entries: seq<Entry>, start: nat): string
  {
    if entries == [] then "" else Block(start, entries[0]) + Blocks(entries[1..], start + 1)
  }

  /** The context string: the blocks numbered from 0. */
  function ContextText(entries: seq<Entry>): string {
    Blocks(entries, 0)
  }

  /** Adding one entry at the end adds its block, numbered after the others, at the end. */
  lemma {:induction false} BlocksSnoc(entries: seq<Entry>, e: Entry, start: nat)
    ensures Blocks(entries + [e], start) == Blocks(entries, start) + Block(start + |entries|, e)
  {
    if entries == [] {
      assert [] + [e] == [e];
      assert Blocks([e], start) == Block(start, e) + Blocks([], start + 1);
    } else {
      assert (entries + [e])[1..] == entries[1..] + [e];
      BlocksSnoc(entries[1..], e, start + 1);
    }
  }

  /** The context of a concatenation is the concatenation of the contexts, the second renumbered. */
  lemma {:induction false} BlocksAppend(a: seq<Entry>, b: seq<Entry>, start: nat)
    ensures Blocks(a + b, start) == Blocks(a, start) + Blocks(b, start + |a|)
  {
    if a == [] {
      assert a + b == b;
    } else {
      assert (a + b)[1..] == a[1..] + b;
      BlocksAppend(a[1..], b, start + 1);
    }
  }

  /** Block `i` of the context shows entry `i` with number `i`. */
  lemma ContextShowsEntry(entries: seq<Entry>, i: nat)
    requires i < |entries|
    ensures exists pre, post :: ContextText(entries) == pre + Block(i, entries[i]) + post
  {
    BlocksAppend(entries[..i], entries[i..], 0);
    assert entries[..i] + entries[i..] == entries;
    assert Blocks(entries[i..], i) == Block(i, entries[i]) + Blocks(entries[i + 1..], i + 1) by {
      assert entries[i..][1..] == entries[i + 1..];
    }
    var pre := Blocks(entries[..i], 0);
    var post := Blocks(entries[i + 1..], i + 1);
    assert ContextText(entries) == pre + Block(i, entries[i]) + post;
  }

  /** Every block ends with a blank line, so a non-empty context does too. */
  lemma {:induction false} ContextEndsWithBlankLine(entries: seq<Entry>, start: nat)
    requires entries != []
    ensures var t := Blocks(entries, start); |t| >= 2 && t[|t| - 2..] == "\n\n"
  {
    if |entries| == 1 {
      assert Blocks(entries, start) == Block(start, entries[0]) + "";
    } else {
      ContextEndsWithBlankLine(entries[1..], start + 1);
      var rest := Blocks(entries[1..], start + 1);
      var t := Block(start, entries[0]) + rest;
      assert t[|t| - 2..] == rest[|rest| - 2..];
    }
  }
}
