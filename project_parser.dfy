/**
 * Snippet extraction from a whole checkout (internal/parser/project_parser.go).
 * The directory walk visits entries in order. Directories are passed over.
 * A file whose lower-cased extension has a parser is read and parsed, and
 * its snippets are appended. The first walk or read error ends the walk, and
 * that error is returned.
 *
 * The file system is a collaborator. The walk is the sequence of callback
 * invocations `filepath.WalkDir` makes, each with the error it passes, if
 * any, and the outcome `os.ReadFile` would have for the entry.
 * `parse(language, content)` is the tree tree-sitter builds. `uuid(k)` is
 * the `k`-th identifier handed out during the walk.
 */
module ProjectParsing {
  import opened Errors
  import opened Strings
  import opened Models
  import opened CodeParsing

  /** One invocation of the walk callback: the path, whether it is a directory, the walk error, the file's contents. */
  datatype WalkEntry = WalkEntry(path: string, isDir: bool, walkErr: Option<Error>, content: Result<string>)

  /** The parser table key of a path: its extension, lower-cased. */
  function Key(path: string): string {
    ToLower(Ext(path))
  }

  /** The parsers the program is configured with: Python for ".py", Go for ".go". */
  function DefaultParsers(): (parsers: map<string, CodeParser>)
    ensures parsers.Keys == {".py", ".go"}
    ensures parsers[".py"].language == LanguagePython && parsers[".go"].language == LanguageGo
  {
    map[".py" := NewCodeParser(LanguagePython).value, ".go" := NewCodeParser(LanguageGo).value]
  }

  /** An entry that ends the walk: the walk reported an error, or a supported file could not be read. */
  predicate Fails(parsers: map<string, CodeParser>, e: WalkEntry) {
    e.walkErr.Some? || (!e.isDir && Key(e.path) in parsers && e.content.Err?)
  }

  function FailureOf(parsers: map<string, CodeParser>, e: WalkEntry): Error
    requires Fails(parsers, e)
  {
    if e.walkErr.Some? then e.walkErr.value else e.content.error
  }

  /** What the callback makes of one entry, its snippets numbered from identifier `next`. */
  function Visit(parsers: map<string, CodeParser>, e: WalkEntry, parse: (Language, string) -> Result<Node>,
                 uuid: nat -> string, next: nat): (r: Result<seq<Fields>>)
    ensures r.Err? <==> Fails(parsers, e)
    ensures r.Err? ==> r.error == FailureOf(parsers, e)
    ensures r.Ok? && r.value != [] ==> !e.isDir && Key(e.path) in parsers && e.content.Ok?
  {
    if e.walkErr.Some? then Err(e.walkErr.value)
    else if e.isDir then Ok([])
    else if Key(e.path) !in parsers then Ok([])
    else if e.content.Err? then Err(e.content.error)
    else
      var p := parsers[Key(e.path)];
      Ok(FileFields(p, parse(p.language, e.content.value), e.path, uuid, next))
  }

  /** The walk from the current entry on, `acc` holding the fields of the snippets collected so far. */
  function Walk(parsers: map<string, CodeParser>, walk: seq<WalkEntry>, parse: (Language, string) -> Result<Node>,
                uuid: nat -> string, acc: seq<Fields>): Result<seq<Fields>>
    decreases |walk|
  {
    if walk == [] then Ok(acc)
    else match Visit(parsers, walk[0], parse, uuid, |acc|)
      case Err(e) => Err(e)
      case Ok(fs) => Walk(parsers, walk[1..], parse, uuid, acc + fs)
  }

  /**
   * The walk callback: a walk error is returned; a directory or a file
   * without parser gives nothing; a supported file that cannot be read gives
   * the read error; otherwise the snippets `ParseFile` makes of it.
   */
  method VisitEntry(parsers: map<string, CodeParser>, e: WalkEntry, parse: (Language, string) -> Result<Node>,
                    uuid: nat -> string, next: nat)
    returns (r: Result<seq<Snippet>>)
    ensures Visit(parsers, e, parse, uuid, next).Err? ==> r == Err(Visit(parsers, e, parse, uuid, next).error)
    ensures Visit(parsers, e, parse, uuid, next).Ok? ==>
      r.Ok? && AllFields(r.value) == Visit(parsers, e, parse, uuid, next).value
    ensures r.Ok? ==> forall s :: s in r.value ==> fresh(s) && s.embedding == []
  {
    if e.walkErr.Some? {
      return Err(e.walkErr.value);
    }
    if e.isDir {
      return Ok([]);
    }
    var ext := ToLower(Ext(e.path));
    if ext !in parsers {
      return Ok([]);
    }
    var parser := parsers[ext];
    if e.content.Err? {
      return Err(e.content.error);
    }
    var fileSnippets := ParseFile(parser, parse(parser.language, e.content.value), e.path, uuid, next);
    return Ok(fileSnippets);
  }

  /**
   * `ParseProject`: on the first failing entry its error is returned and no
   * snippet; otherwise the snippets of every supported file, file after file
   * in walk order, all new and without embedding.
   */
  method ParseProject(parsers: map<string, CodeParser>, walk: seq<WalkEntry>, parse: (Language, string) -> Result<Node>,
                      uuid: nat -> string)
    returns (r: Result<seq<Snippet>>)
    ensures Walk(parsers, walk, parse, uuid, []).Err? ==> r == Err(Walk(parsers, walk, parse, uuid, []).error)
    ensures Walk(parsers, walk, parse, uuid, []).Ok? ==>
      r.Ok? && AllFields(r.value) == Walk(parsers, walk, parse, uuid, []).value
    ensures r.Ok? ==> forall s :: s in r.value ==> fresh(s) && s.embedding == []
  {
    var all: seq<Snippet> := [];
    var i := 0;
    while i < |walk|
      invariant 0 <= i <= |walk|
      invariant Walk(parsers, walk, parse, uuid, []) == Walk(parsers, walk[i..], parse, uuid, AllFields(all))
      invariant forall s :: s in all ==> fresh(s) && s.embedding == []
    {
      assert walk[i..][1..] == walk[i + 1..];
      var visited := VisitEntry(parsers, walk[i], parse, uuid, |all|);
      if visited.Err? {
        return Err(visited.error);
      }
      AllFieldsAppend(all, visited.value);
      all := all + visited.value;
      i := i + 1;
    }
    return Ok(all);
  }

  /**
   * The walk fails exactly when some entry fails, and then with the error of
   * the first failing entry.
   */
  lemma {:induction false} WalkFailsAtFirstFailure(parsers: map<string, CodeParser>, walk: seq<WalkEntry>,
                                                  parse: (Language, string) -> Result<Node>, uuid: nat -> string, acc: seq<Fields>)
    ensures Walk(parsers, walk, parse, uuid, acc).Err? <==> exists i :: 0 <= i < |walk| && Fails(parsers, walk[i])
    ensures Walk(parsers, walk, parse, uuid, acc).Err? ==>
      exists i :: 0 <= i < |walk| && Fails(parsers, walk[i])
        && (forall j :: 0 <= j < i ==> !Fails(parsers, walk[j]))
        && Walk(parsers, walk, parse, uuid, acc).error == FailureOf(parsers, walk[i])
    decreases |walk|
  {
    if walk != [] {
      var v := Visit(parsers, walk[0], parse, uuid, |acc|);
      if v.Ok? {
        WalkFailsAtFirstFailure(parsers, walk[1..], parse, uuid, acc + v.value);
        if exists i :: 0 <= i < |walk[1..]| && Fails(parsers, walk[1..][i]) {
          var i :| 0 <= i < |walk[1..]| && Fails(parsers, walk[1..][i])
            && (forall j :: 0 <= j < i ==> !Fails(parsers, walk[1..][j]))
            && Walk(parsers, walk[1..], parse, uuid, acc + v.value).error == FailureOf(parsers, walk[1..][i]);
          assert Fails(parsers, walk[i + 1]);
          forall j | 0 <= j < i + 1 ensures !Fails(parsers, walk[j]) {
            if j > 0 {
              assert walk[j] == walk[1..][j - 1];
            }
          }
        } else {
          forall i | 0 <= i < |walk| ensures !Fails(parsers, walk[i]) {
            if i > 0 {
              assert walk[i] == walk[1..][i - 1];
            }
          }
        }
      }
    }
  }

  /**
   * Identifiers are handed out in order over the whole walk: in a successful
   * walk the `k`-th snippet's identifier is `uuid(k)`, past the fields
   * already collected.
   */
  lemma {:induction false} WalkNumbersSnippets(parsers: map<string, CodeParser>, walk: seq<WalkEntry>,
                                              parse: (Language, string) -> Result<Node>, uuid: nat -> string, acc: seq<Fields>)
    requires Walk(parsers, walk, parse, uuid, acc).Ok?
    ensures var fs := Walk(parsers, walk, parse, uuid, acc).value;
      |acc| <= |fs| && fs[..|acc|] == acc && forall k :: |acc| <= k < |fs| ==> fs[k].id == uuid(k)
    decreases |walk|
  {
    if walk != [] {
      var v := Visit(parsers, walk[0], parse, uuid, |acc|);
      WalkNumbersSnippets(parsers, walk[1..], parse, uuid, acc + v.value);
      var fs := Walk(parsers, walk, parse, uuid, acc).value;
      assert fs[..|acc + v.value|] == acc + v.value;
      assert fs[..|acc|] == (acc + v.value)[..|acc|];
      forall k | |acc| <= k < |acc + v.value| ensures fs[k].id == uuid(k) {
        assert fs[k] == (acc + v.value)[k] == v.value[k - |acc|];
      }
    }
  }

  /** With a generator that never repeats itself, the snippets of a project have pairwise distinct identifiers. */
  lemma DistinctIdentifiers(parsers: map<string, CodeParser>, walk: seq<WalkEntry>,
                            parse: (Language, string) -> Result<Node>, uuid: nat -> string)
    requires forall m: nat, n: nat :: m != n ==> uuid(m) != uuid(n)
    requires Walk(parsers, walk, parse, uuid, []).Ok?
    ensures var fs := Walk(parsers, walk, parse, uuid, []).value;
      forall a, b :: 0 <= a < b < |fs| ==> fs[a].id != fs[b].id
  {
    WalkNumbersSnippets(parsers, walk, parse, uuid, []);
  }

  /** Field `f` names a file of the walk that has a parser, with that parser's language. */
  predicate FromSupportedFile(parsers: map<string, CodeParser>, walk: seq<WalkEntry>, f: Fields) {
    exists i :: 0 <= i < |walk| && !walk[i].isDir && Key(walk[i].path) in parsers
      && f.filename == walk[i].path && f.language == parsers[Key(walk[i].path)].language
  }

  /**
   * Every snippet of a successful walk, past those already collected, comes
   * from a file of the walk that has a parser: it carries that file's path
   * and that parser's language.
   */
  lemma {:induction false} WalkSnippetOrigins(parsers: map<string, CodeParser>, walk: seq<WalkEntry>,
                                             parse: (Language, string) -> Result<Node>, uuid: nat -> string, acc: seq<Fields>)
    requires Walk(parsers, walk, parse, uuid, acc).Ok?
    ensures var fs := Walk(parsers, walk, parse, uuid, acc).value;
      |acc| <= |fs| && forall k :: |acc| <= k < |fs| ==> FromSupportedFile(parsers, walk, fs[k])
    decreases |walk|
  {
    if walk != [] {
      var v := Visit(parsers, walk[0], parse, uuid, |acc|);
      assert v.Ok?;
      var rest := Walk(parsers, walk[1..], parse, uuid, acc + v.value);
      WalkSnippetOrigins(parsers, walk[1..], parse, uuid, acc + v.value);
      WalkNumbersSnippets(parsers, walk[1..], parse, uuid, acc + v.value);
      var fs := rest.value;
      assert Walk(parsers, walk, parse, uuid, acc) == rest;
      forall k | |acc| <= k < |fs|
        ensures FromSupportedFile(parsers, walk, fs[k])
      {
        if k < |acc + v.value| {
          assert fs[k] == (acc + v.value)[k] == v.value[k - |acc|];
          var p := parsers[Key(walk[0].path)];
          var tree := parse(p.language, walk[0].content.value);
          assert v.value == FileFields(p, tree, walk[0].path, uuid, |acc|);
          assert tree.Ok?;
          assert fs[k].filename == walk[0].path && fs[k].language == p.language;
        } else {
          assert FromSupportedFile(parsers, walk[1..], fs[k]);
          var i :| 0 <= i < |walk[1..]| && !walk[1..][i].isDir && Key(walk[1..][i].path) in parsers
            && fs[k].filename == walk[1..][i].path && fs[k].language == parsers[Key(walk[1..][i].path)].language;
          assert walk[1..][i] == walk[i + 1];
        }
      }
    }
  }

  /** The ASCII case of a file name does not matter: "main.GO" is parsed as Go like "main.go". */
  lemma {:induction false} KeyIgnoresCase(path: string)
    ensures Key(ToLower(path)) == Key(path)
  {
    ExtScanLower(path, |path| - 1);
    LowerIdempotent(Ext(path));
  }

  lemma {:induction false} ExtScanLower(path: string, i: int)
    requires -1 <= i < |path|
    ensures ExtScan(ToLower(path), i) == ToLower(ExtScan(path, i))
    decreases i + 1
  {
    var lower := ToLower(path);
    if i >= 0 {
      assert lower[i] == LowerChar(path[i]);
      if path[i] == '/' || path[i] == '.' {
        assert lower[i..] == ToLower(path[i..]);
      } else {
        ExtScanLower(path, i - 1);
      }
    }
  }

  lemma LowerIdempotent(s: string)
    ensures ToLower(ToLower(s)) == ToLower(s)
  {
  }
}
