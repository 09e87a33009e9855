/**
 * Snippet extraction from one source file (internal/parser/code_parser.go).
 * A parser knows the syntax-tree node types worth keeping for its language;
 * of a parsed file it keeps the root node and its direct children whose
 * type is one of them, in order, each as a new snippet.
 *
 * Tree-sitter is a collaborator: the tree it builds for the file's content,
 * or its parse error, is an input. A node carries its type, its source text
 * and its children. `uuid(k)` is the `k`-th identifier the uuid generator
 * hands out.
 */
module CodeParsing {
  import opened Errors
  import opened Models

  /** `Language`: the name a snippet is tagged with. */
  type Language = string

  const LanguagePython: Language := "python"
  const LanguageGo: Language := "go"

  /** A node of the syntax tree: its type, the source text it spans, its children in order. */
  datatype Node = Node(kind: string, text: string, children: seq<Node>)

  /** `CodeParser`: the node types it extracts and the language it parses (which also names its grammar). */
  datatype CodeParser = CodeParser(nodeTypes: seq<string>, language: Language)

  /** `NewCodeParser`: a parser for Python or Go; no parser (nil) for any other language. */
  function NewCodeParser(language: Language): (p: Option<CodeParser>)
    ensures p.Some? <==> language == LanguagePython || language == LanguageGo
    ensures p.Some? ==> p.value.language == language
  {
    if language == LanguagePython then
      Some(CodeParser(["class_definition", "function_definition"], language))
    else if language == LanguageGo then
      Some(CodeParser(["type_declaration", "function_declaration", "method_declaration"], language))
    else None
  }

  /** The Python parser keeps class and function definitions, and nothing else. */
  lemma PythonTargets(kind: string)
    ensures kind in NewCodeParser(LanguagePython).value.nodeTypes <==> kind == "class_definition" || kind == "function_definition"
  {
  }

  /** The Go parser keeps type, function and method declarations, and nothing else. */
  lemma GoTargets(kind: string)
    ensures kind in NewCodeParser(LanguageGo).value.nodeTypes
      <==> kind == "type_declaration" || kind == "function_declaration" || kind == "method_declaration"
  {
  }

  /** `isTargetType`: the linear search of the parser's node types. */
  method IsTargetType(p: CodeParser, nodeType: string) returns (b: bool)
    ensures b <==> nodeType in p.nodeTypes
  {
    for i := 0 to |p.nodeTypes|
      invariant nodeType !in p.nodeTypes[..i]
    {
      if p.nodeTypes[i] == nodeType {
        return true;
      }
    }
    return false;
  }

  /** The children kept, in order: those whose type is a target type. */
  function TargetChildren(p: CodeParser, children: seq<Node>): (r: seq<Node>)
    ensures |r| <= |children|
  {
    if children == [] then []
    else
      var last := children[|children| - 1];
      TargetChildren(p, children[..|children| - 1]) + (if last.kind in p.nodeTypes then [last] else [])
  }

  /** The nodes a file's tree contributes: the root if it is a target, then the target children. */
  function Targets(p: CodeParser, root: Node): seq<Node> {
    (if root.kind in p.nodeTypes then [root] else []) + TargetChildren(p, root.children)
  }

  /** Every child kept is a child of the target type. */
  lemma {:induction false} TargetChildrenSound(p: CodeParser, children: seq<Node>)
    ensures forall n :: n in TargetChildren(p, children) ==> n in children && n.kind in p.nodeTypes
  {
    if children != [] {
      TargetChildrenSound(p, children[..|children| - 1]);
    }
  }

  /** Every child of a target type is kept. */
  lemma {:induction false} TargetChildrenComplete(p: CodeParser, children: seq<Node>)
    ensures forall n :: n in children && n.kind in p.nodeTypes ==> n in TargetChildren(p, children)
  {
    if children != [] {
      var init := children[..|children| - 1];
      TargetChildrenComplete(p, init);
      assert children == init + [children[|children| - 1]];
    }
  }

  /**
   * Only the root and its direct children are looked at: a node is kept
   * exactly when it is the root or one of its children and has a target
   * type; grandchildren are never kept on their own.
   */
  lemma TargetsExactly(p: CodeParser, root: Node, n: Node)
    ensures n in Targets(p, root) <==> (n == root || n in root.children) && n.kind in p.nodeTypes
  {
    TargetChildrenSound(p, root.children);
    TargetChildrenComplete(p, root.children);
  }

  /** The fields of the snippets made of `nodes` in file `filename`, numbered from identifier `next`. */
  function NodeFields(p: CodeParser, nodes: seq<Node>, filename: string, uuid: nat -> string, next: nat): (r: seq<Fields>)
    ensures |r| == |nodes|
    ensures forall i :: 0 <= i < |nodes| ==> r[i] == Fields(uuid(next + i), nodes[i].text, filename, p.language)
  {
    if nodes == [] then [] else [Fields(uuid(next), nodes[0].text, filename, p.language)] + NodeFields(p, nodes[1..], filename, uuid, next + 1)
  }

  /** The fields of the snippets `ParseFile` returns: none when parsing failed. */
  function FileFields(p: CodeParser, tree: Result<Node>, filename: string, uuid: nat -> string, next: nat): (r: seq<Fields>)
    ensures tree.Err? ==> r == []
    ensures tree.Ok? ==> |r| == |Targets(p, tree.value)|
  {
    if tree.Err? then [] else NodeFields(p, Targets(p, tree.value), filename, uuid, next)
  }

  /**
   * `ParseFile`: on a parse error no snippet; otherwise one new snippet per
   * kept node, in order, with a fresh identifier, the node's text, the
   * file's name and the parser's language, and no embedding.
   */
  method ParseFile(p: CodeParser, tree: Result<Node>, filename: string, uuid: nat -> string, next: nat)
    returns (snippets: seq<Snippet>)
    ensures AllFields(snippets) == FileFields(p, tree, filename, uuid, next)
    ensures forall s :: s in snippets ==> fresh(s) && s.embedding == []
  {
    snippets := [];
    if tree.Err? {
      return;
    }
    var root := tree.value;
    var rootIsTarget := IsTargetType(p, root.kind);
    ghost var kept: seq<Node> := [];
    if rootIsTarget {
      var s := new Snippet(uuid(next), root.text, filename, p.language);
      snippets := [s];
      kept := [root];
    }
    var children := ParseChildren(p, root.children, filename, uuid, next + |snippets|);
    NodeFieldsAppend(p, kept, TargetChildren(p, root.children), filename, uuid, next);
    AllFieldsAppend(snippets, children);
    snippets := snippets + children;
  }

  /** The sibling loop of `ParseFile`: one new snippet per child of a target type, numbered from `next`. */
  method ParseChildren(p: CodeParser, children: seq<Node>, filename: string, uuid: nat -> string, next: nat)
    returns (snippets: seq<Snippet>)
    ensures AllFields(snippets) == NodeFields(p, TargetChildren(p, children), filename, uuid, next)
    ensures forall s :: s in snippets ==> fresh(s) && s.embedding == []
  {
    snippets := [];
    ghost var nodes: seq<Node> := [];
    var i := 0;
    while i < |children|
      invariant 0 <= i <= |children|
      invariant nodes == TargetChildren(p, children[..i])
      invariant |snippets| == |nodes|
      invariant forall j :: 0 <= j < |snippets| ==>
        FieldsOf(snippets[j]) == Fields(uuid(next + j), nodes[j].text, filename, p.language)
      invariant forall j :: 0 <= j < |snippets| ==> fresh(snippets[j]) && snippets[j].embedding == []
    {
      var node := children[i];
      var isTarget := IsTargetType(p, node.kind);
      assert children[..i + 1][..i] == children[..i];
      if isTarget {
        var s := new Snippet(uuid(next + |snippets|), node.text, filename, p.language);
        snippets := snippets + [s];
        nodes := nodes + [node];
      }
      i := i + 1;
    }
    assert children[..i] == children;
    assert AllFields(snippets) == NodeFields(p, nodes, filename, uuid, next);
  }

  lemma NodeFieldsAppend(p: CodeParser, a: seq<Node>, b: seq<Node>, filename: string, uuid: nat -> string, next: nat)
    ensures NodeFields(p, a + b, filename, uuid, next)
         == NodeFields(p, a, filename, uuid, next) + NodeFields(p, b, filename, uuid, next + |a|)
  {
    var l := NodeFields(p, a + b, filename, uuid, next);
    var r := NodeFields(p, a, filename, uuid, next) + NodeFields(p, b, filename, uuid, next + |a|);
    assert |l| == |r|;
    forall i | 0 <= i < |l| ensures l[i] == r[i] {
      if i < |a| {
        assert (a + b)[i] == a[i];
      } else {
        assert (a + b)[i] == b[i - |a|];
      }
    }
  }

}
