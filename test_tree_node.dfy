/**
 * The test trees: a whitespace-separated pre-order text where "0" is an
 * empty subtree and "1", "2", "3" are nodes of the three implementation
 * classes, each followed by its left and then its right subtree.
 */
module TestTrees {
  import opened Jvmti

  datatype Impl = Impl1 | Impl2 | Impl3

  datatype TestTreeNode = Null | Node(impl: Impl, left: TestTreeNode, right: TestTreeNode)

  /** What goes wrong while parsing: the token iterator runs dry, or the token has no entry in the map. */
  datatype ParseError = NoSuchElement | NullPointer

  datatype Result<T> = Ok(value: T) | Err(error: ParseError)

  /**
   * `TOKEN_TO_IMPL.get(token)`: `None` when the token has no
   * entry, otherwise what the creator makes, `None` for "0".
   */
  function TokenToImpl(token: string): (r: Option<Option<Impl>>)
    ensures r.Some? <==> token in {"0", "1", "2", "3"}
    ensures r == Some(None) <==> token == "0"
  {
    if token == "0" then Some(None)
    else if token == "1" then Some(Some(Impl1))
    else if token == "2" then Some(Some(Impl2))
    else if token == "3" then Some(Some(Impl3))
    else None
  }

  function ImplToken(impl: Impl): string {
    match impl
    case Impl1 => "1"
    case Impl2 => "2"
    case Impl3 => "3"
  }

  /** The tokens that describe a tree, in pre-order. */
  function Preorder(t: TestTreeNode): seq<string> {
    match t
    case Null => ["0"]
    case Node(impl, l, r) => [ImplToken(impl)] + Preorder(l) + Preorder(r)
  }

  function Count(t: TestTreeNode): nat {
    match t
    case Null => 0
    case Node(_, l, r) => 1 + Count(l) + Count(r)
  }

  lemma {:induction false} PreorderLength(t: TestTreeNode)
    ensures |Preorder(t)| == 2 * Count(t) + 1
  {
    match t
    case Null =>
    case Node(_, l, r) =>
      PreorderLength(l);
      PreorderLength(r);
  }

  /**
   * `createNode`: one token for the node, then the left and
   * the right subtree from the same iterator. On success the rest of the
   * tokens is a proper suffix of the input.
   */
  function CreateNode(tokens: seq<string>): (r: Result<(TestTreeNode, seq<string>)>)
    decreases |tokens|
    ensures r.Ok? ==> |r.value.1| < |tokens| && r.value.1 == tokens[|tokens| - |r.value.1|..]
  {
    if |tokens| == 0 then Err(NoSuchElement)
    else
      match TokenToImpl(tokens[0])
      case None => Err(NullPointer)
      case Some(None) => Ok((Null, tokens[1..]))
      case Some(Some(impl)) =>
        var left := CreateNode(tokens[1..]);
        if left.Err? then Err(left.error)
        else
          var right := CreateNode(left.value.1);
          if right.Err? then Err(right.error)
          else Ok((Node(impl, left.value.0, right.value.0), right.value.1))
  }

  /** Parsing the pre-order tokens of a tree gives the tree back and leaves whatever follows. */
  lemma {:induction false} CreateNodeOfPreorder(t: TestTreeNode, rest: seq<string>)
    ensures CreateNode(Preorder(t) + rest) == Ok((t, rest))
  {
    match t
    case Null =>
      assert (Preorder(t) + rest)[1..] == rest;
    case Node(impl, l, r) =>
      var tokens := Preorder(t) + rest;
      assert tokens[0] == ImplToken(impl);
      ImplTokenRead(impl);
      assert tokens[1..] == Preorder(l) + (Preorder(r) + rest);
      CreateNodeOfPreorder(l, Preorder(r) + rest);
      CreateNodeOfPreorder(r, rest);
  }

  /** What a successful parse consumed is the pre-order of the tree it built. */
  lemma {:induction false} CreateNodeIsPreorder(tokens: seq<string>)
    decreases |tokens|
    ensures CreateNode(tokens).Ok? ==> tokens == Preorder(CreateNode(tokens).value.0) + CreateNode(tokens).value.1
  {
    if |tokens| > 0 && TokenToImpl(tokens[0]).Some? {
      if TokenToImpl(tokens[0]).value.None? {
        assert tokens == ["0"] + tokens[1..];
      } else {
        var impl := TokenToImpl(tokens[0]).value.value;
        assert tokens[0] == ImplToken(impl);
        var left := CreateNode(tokens[1..]);
        CreateNodeIsPreorder(tokens[1..]);
        if left.Ok? {
          var right := CreateNode(left.value.1);
          CreateNodeIsPreorder(left.value.1);
          if right.Ok? {
            PreorderNode(tokens, impl, left.value.0, left.value.1, right.value.0, right.value.1);
          }
        }
      }
    }
  }

  lemma PreorderNode(tokens: seq<string>, impl: Impl, l: TestTreeNode, lr: seq<string>, r: TestTreeNode, rr: seq<string>)
    requires |tokens| > 0 && tokens[0] == ImplToken(impl) && tokens[1..] == Preorder(l) + lr && lr == Preorder(r) + rr
    ensures tokens == Preorder(Node(impl, l, r)) + rr
  {
    var p := Preorder(Node(impl, l, r));
    assert p == [ImplToken(impl)] + Preorder(l) + Preorder(r);
    assert p + rr == [tokens[0]] + (Preorder(l) + (Preorder(r) + rr));
    assert tokens == [tokens[0]] + tokens[1..];
  }

  /** The token a node is written with is read back as that node's class. */
  lemma ImplTokenRead(impl: Impl)
    ensures TokenToImpl(ImplToken(impl)) == Some(Some(impl))
  {
  }

  /**
   * A tree with k nodes consumes exactly 2k+1 tokens, and the parse fails
   * exactly when no prefix of the tokens describes a tree.
   */
  lemma ParseConsumes(tokens: seq<string>)
    ensures CreateNode(tokens).Ok? ==>
              |tokens| - |CreateNode(tokens).value.1| == 2 * Count(CreateNode(tokens).value.0) + 1
    ensures CreateNode(tokens).Ok? <==> exists t, rest :: tokens == Preorder(t) + rest
  {
    CreateNodeIsPreorder(tokens);
    if CreateNode(tokens).Ok? {
      PreorderLength(CreateNode(tokens).value.0);
    }
    if exists t, rest :: tokens == Preorder(t) + rest {
      var t, rest :| tokens == Preorder(t) + rest;
      CreateNodeOfPreorder(t, rest);
    }
  }

  /** The characters of the regular expression class `\s`. */
  predicate IsSpace(c: char) {
    c == ' ' || c == '\t' || c == '\n' || c == '\U{B}' || c == '\U{C}' || c == '\r'
  }

  predicate NoSpace(s: string) {
    forall i :: 0 <= i < |s| ==> !IsSpace(s[i])
  }

  /** The longest prefix of `s` without whitespace. */
  function Word(s: string): (w: string)
    ensures |w| <= |s| && w == s[..|w|] && NoSpace(w)
    ensures |w| < |s| ==> IsSpace(s[|w|])
  {
    if s == [] || IsSpace(s[0]) then [] else [s[0]] + Word(s[1..])
  }

  /** The maximal runs of non-whitespace characters of `s`. */
  function Fields(s: string): (r: seq<string>)
    decreases |s|
    ensures forall i :: 0 <= i < |r| ==> r[i] != [] && NoSpace(r[i])
  {
    if s == [] then []
    else if IsSpace(s[0]) then Fields(s[1..])
    else
      var w := Word(s);
      [w] + Fields(s[|w|..])
  }

  /**
   * `str.split("\\s+")`: the text between runs of whitespace, with an empty
   * first piece when the text starts with whitespace, and the empty pieces
   * at the end (all of them, for text that is only whitespace) dropped; a
   * text without whitespace is its own only piece.
   */
  function Split(s: string): seq<string> {
    if s == [] then [""]
    else if IsSpace(s[0]) && Fields(s) != [] then [""] + Fields(s)
    else Fields(s)
  }

  /** `createTreeFromString`; tokens after the tree are ignored. */
  function CreateTreeFromString(str: string): Result<TestTreeNode> {
    var r := CreateNode(Split(str));
    if r.Ok? then Ok(r.value.0) else Err(r.error)
  }

  /** Tokens written out with one space between them. */
  function Join(tokens: seq<string>): string {
    if |tokens| == 0 then []
    else if |tokens| == 1 then tokens[0]
    else tokens[0] + " " + Join(tokens[1..])
  }

  lemma {:induction false} WordOf(w: string, rest: string)
    requires NoSpace(w) && (rest == [] || IsSpace(rest[0]))
    ensures Word(w + rest) == w
  {
    if w != [] {
      assert (w + rest)[1..] == w[1..] + rest;
      WordOf(w[1..], rest);
    }
  }

  /** Splitting the joined tokens gives them back when none is empty or holds whitespace. */
  lemma {:induction false} FieldsOfJoin(tokens: seq<string>)
    requires forall i :: 0 <= i < |tokens| ==> tokens[i] != [] && NoSpace(tokens[i])
    ensures Fields(Join(tokens)) == tokens
  {
    if |tokens| == 1 {
      WordOf(tokens[0], []);
      assert tokens[0] + [] == tokens[0];
      assert Join(tokens)[|tokens[0]|..] == [];
    } else if |tokens| > 1 {
      var s := Join(tokens);
      var rest := Join(tokens[1..]);
      assert s == tokens[0] + (" " + rest);
      WordOf(tokens[0], " " + rest);
      assert s[|tokens[0]|..] == " " + rest;
      assert (" " + rest)[1..] == rest;
      FieldsOfJoin(tokens[1..]);
    }
  }

  /** The text of a tree parses back to the tree. */
  lemma CreateTreeFromPreorder(t: TestTreeNode)
    ensures CreateTreeFromString(Join(Preorder(t))) == Ok(t)
  {
    var tokens := Preorder(t);
    assert forall i :: 0 <= i < |tokens| ==> tokens[i] in {"0", "1", "2", "3"} by {
      PreorderTokens(t);
    }
    FieldsOfJoin(tokens);
    assert Join(tokens)[0] == tokens[0][0];
    CreateNodeOfPreorder(t, []);
    assert tokens + [] == tokens;
  }

  lemma {:induction false} PreorderTokens(t: TestTreeNode)
    ensures |Preorder(t)| >= 1
    ensures forall i :: 0 <= i < |Preorder(t)| ==> Preorder(t)[i] in {"0", "1", "2", "3"}
  {
    match t
    case Null =>
    case Node(_, l, r) =>
      PreorderTokens(l);
      PreorderTokens(r);
  }
}
