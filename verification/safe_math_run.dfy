/**
 Running the evaluator of `safe_math.py`: the checks on the text and on the tree, and the recursive
 evaluation that counts its steps.
 */
module SafeMathRun {
  import opened Common
  import opened IntegerWidth
  import opened SafeMath

  // ---------- The text ----------

  function Depth(text: string): int {
    if text == [] then 0
    else Depth(text[..|text| - 1]) + (match text[|text| - 1] case '(' => 1 case ')' => -1 case _ => 0)
  }

  /** No prefix of the text opens more than the allowed number of parentheses. */
  ghost predicate NestedWithin(text: string) {
    forall k :: 0 <= k <= |text| ==> Depth(text[..k]) <= MAX_NESTING
  }

  predicate AllowedChar(c: char) {
    'a' <= c <= 'z' || 'A' <= c <= 'Z' || '0' <= c <= '9' || c in "_ .,+-*/%()^\t"
  }

  predicate HasDunder(text: string) {
    exists k :: 0 <= k < |text| - 1 && text[k] == '_' && text[k + 1] == '_'
  }

  ghost predicate TextAllowed(text: string) {
    && 0 < |text| <= MAX_LENGTH && (forall c <- text :: AllowedChar(c)) && !HasDunder(text)
    && NestedWithin(text)
  }

  /** `_precheck`. */
  method Precheck(text: string) returns (ok: bool)
    ensures ok <==> TextAllowed(text)
  {
    if text == "" || |text| > MAX_LENGTH { return false; }
    if (exists c <- text :: !AllowedChar(c)) || HasDunder(text) { return false; }
    var depth := 0;
    for k := 0 to |text|
      invariant depth == Depth(text[..k])
      invariant forall i :: 0 <= i <= k ==> Depth(text[..i]) <= MAX_NESTING
    {
      assert text[..k + 1][..k] == text[..k];
      if text[k] == '(' {
        depth := depth + 1;
        if depth > MAX_NESTING { return false; }
      } else if text[k] == ')' {
        depth := depth - 1;
      }
    }
    return true;
  }

  /** What Python's `strip` removes. */
  predicate IsSpace(c: char) {
    var n := c as int;
    || 0x9 <= n <= 0xD || 0x1C <= n <= 0x20 || 0x2000 <= n <= 0x200A
    || n in {0x85, 0xA0, 0x1680, 0x2028, 0x2029, 0x202F, 0x205F, 0x3000}
  }

  /** `strip`. */
  function Stripped(text: string): string {
    if text == [] then []
    else if IsSpace(text[0]) then Stripped(text[1..])
    else if IsSpace(text[|text| - 1]) then Stripped(text[..|text| - 1])
    else text
  }

  predicate AllSpace(text: string) {
    forall c <- text :: IsSpace(c)
  }

  lemma SpaceJoins(a: string, b: string)
    requires AllSpace(a) && AllSpace(b)
    ensures AllSpace(a + b)
  {
  }

  lemma WidenFront(first: string, front: string, middle: string, back: string)
    ensures first + (front + middle + back) == (first + front) + middle + back
  {
  }

  lemma WidenBack(front: string, middle: string, back: string, last: string)
    ensures (front + middle + back) + last == front + middle + (back + last)
  {
  }

  /** The stripped text is the text without the white space around it. */
  lemma {:induction false} StrippedIs(text: string) returns (front: string, back: string)
    ensures text == front + Stripped(text) + back && AllSpace(front) && AllSpace(back)
    ensures var s := Stripped(text); s != [] ==> !IsSpace(s[0]) && !IsSpace(s[|s| - 1])
  {
    hide IsSpace;
    if text == [] {
      front, back := [], [];
    } else if IsSpace(text[0]) {
      var first, rest := text[..1], text[1..];
      assert AllSpace(first) && text == first + rest && Stripped(text) == Stripped(rest);
      hide AllSpace, Stripped;
      front, back := StrippedIs(rest);
      SpaceJoins(first, front);
      WidenFront(first, front, Stripped(rest), back);
      front := first + front;
    } else if IsSpace(text[|text| - 1]) {
      var rest, last := text[..|text| - 1], text[|text| - 1..];
      assert AllSpace(last) && text == rest + last && Stripped(text) == Stripped(rest);
      hide AllSpace, Stripped;
      front, back := StrippedIs(rest);
      SpaceJoins(back, last);
      WidenBack(front, Stripped(rest), back, last);
      back := back + last;
    } else {
      front, back := [], [];
    }
  }

  /** `replace("^", "**")`. */
  function Carets(text: string): (r: string)
    ensures '^' !in r
  {
    if text == [] then [] else (if text[0] == '^' then "**" else [text[0]]) + Carets(text[1..])
  }

  // ---------- The tree ----------

  /** What a walk of the tree meets: expressions, and the nodes the parser hangs under them. */
  datatype Item = Root(body: Node) | Expr(node: Node) | Load | OperatorItem | Keyword

  function Exprs(nodes: seq<Node>): (items: seq<Item>)
    ensures |items| == |nodes|
  {
    if nodes == [] then [] else [Expr(nodes[0])] + Exprs(nodes[1..])
  }

  function Keywords(count: nat): (items: seq<Item>)
    ensures |items| == count
  {
    if count == 0 then [] else [Keyword] + Keywords(count - 1)
  }

  function Children(item: Item): seq<Item> {
    match item
    case Root(body) => [Expr(body)]
    case Expr(Name(_)) => [Load]
    case Expr(BinOp(l, _, r)) => [Expr(l), OperatorItem, Expr(r)]
    case Expr(UnaryOp(_, e)) => [OperatorItem, Expr(e)]
    case Expr(Call(f, args, keywords)) => [Expr(f)] + Exprs(args) + Keywords(keywords)
    case Expr(Foreign(children)) => Exprs(children)
    case _ => []
  }

  /** How many nodes a walk of the expression meets. */
  function Weight(node: Node): (n: nat)
    ensures n >= 1
  {
    match node
    case Constant(_) => 1
    case Name(_) => 2
    case BinOp(l, _, r) => 2 + Weight(l) + Weight(r)
    case UnaryOp(_, e) => 2 + Weight(e)
    case Call(f, args, keywords) => 1 + Weight(f) + Weights(args) + keywords
    case Foreign(children) => 1 + Weights(children)
  }

  function Weights(nodes: seq<Node>): nat {
    if nodes == [] then 0 else Weight(nodes[0]) + Weights(nodes[1..])
  }

  function ItemWeight(item: Item): (n: nat)
    ensures n >= 1
  {
    match item
    case Root(body) => 1 + Weight(body)
    case Expr(node) => Weight(node)
    case _ => 1
  }

  function Total(items: seq<Item>): nat {
    if items == [] then 0 else ItemWeight(items[0]) + Total(items[1..])
  }

  predicate Known(item: Item) {
    !item.Keyword? && (item.Expr? ==> !item.node.Foreign?)
  }

  /** Every node of the tree is one the evaluator knows. */
  predicate AllKnown(node: Node) {
    match node
    case Constant(_) => true
    case Name(_) => true
    case BinOp(l, _, r) => AllKnown(l) && AllKnown(r)
    case UnaryOp(_, e) => AllKnown(e)
    case Call(f, args, keywords) => AllKnown(f) && EachKnown(args) && keywords == 0
    case Foreign(_) => false
  }

  predicate EachKnown(nodes: seq<Node>) {
    nodes != [] ==> AllKnown(nodes[0]) && EachKnown(nodes[1..])
  }

  predicate ItemKnown(item: Item) {
    match item
    case Root(body) => AllKnown(body)
    case Expr(node) => AllKnown(node)
    case Keyword => false
    case _ => true
  }

  predicate ItemsKnown(items: seq<Item>) {
    forall k :: 0 <= k < |items| ==> ItemKnown(items[k])
  }

  lemma {:induction false} TotalAppend(a: seq<Item>, b: seq<Item>)
    ensures Total(a + b) == Total(a) + Total(b)
  {
    if a == [] {
      assert a + b == b;
    } else {
      assert (a + b)[1..] == a[1..] + b;
      TotalAppend(a[1..], b);
    }
  }

  lemma {:induction false} ExprsTotal(nodes: seq<Node>)
    ensures Total(Exprs(nodes)) == Weights(nodes) && (ItemsKnown(Exprs(nodes)) <==> EachKnown(nodes))
  {
    if nodes != [] {
      ExprsTotal(nodes[1..]);
      var items, rest := Exprs(nodes), Exprs(nodes[1..]);
      assert items[1..] == rest;
      assert ItemsKnown(items) <==> ItemKnown(items[0]) && ItemsKnown(rest) by { HeadAndTail(items); }
    }
  }

  lemma HeadAndTail(items: seq<Item>)
    requires items != []
    ensures ItemsKnown(items) <==> ItemKnown(items[0]) && ItemsKnown(items[1..])
  {
    assert forall k :: 1 <= k < |items| ==> items[k] == items[1..][k - 1];
  }

  lemma {:induction false} KeywordsTotal(count: nat)
    ensures Total(Keywords(count)) == count && (ItemsKnown(Keywords(count)) <==> count == 0)
  {
    if count > 0 {
      KeywordsTotal(count - 1);
      assert Keywords(count)[1..] == Keywords(count - 1) && Keywords(count)[0] == Keyword;
    }
  }

  /** An item's weight is one more than its children's, and it is all known when it and they are. */
  lemma ChildrenTotal(item: Item)
    ensures ItemWeight(item) == 1 + Total(Children(item))
    ensures ItemKnown(item) <==> Known(item) && ItemsKnown(Children(item))
  {
    match item
    case Expr(Call(f, args, keywords)) =>
      ExprsTotal(args);
      KeywordsTotal(keywords);
      TotalAppend([Expr(f)] + Exprs(args), Keywords(keywords));
      TotalAppend([Expr(f)], Exprs(args));
      assert [Expr(f)][1..] == [];
      assert Total([Expr(f)]) == Weight(f);
      KnownAppend([Expr(f)] + Exprs(args), Keywords(keywords));
      KnownAppend([Expr(f)], Exprs(args));
    case Expr(Foreign(children)) => ExprsTotal(children);
    case Expr(BinOp(l, _, r)) => ThreeItems(Expr(l), OperatorItem, Expr(r));
    case Expr(UnaryOp(_, e)) => TwoItems(OperatorItem, Expr(e));
    case _ =>
  }

  lemma TwoItems(a: Item, b: Item)
    ensures Total([a, b]) == ItemWeight(a) + ItemWeight(b)
    ensures ItemsKnown([a, b]) <==> ItemKnown(a) && ItemKnown(b)
  {
    var items := [a, b];
    assert items[1..] == [b] && [b][1..] == [];
    assert Total([b]) == ItemWeight(b);
    assert items[0] == a && items[1] == b;
  }

  lemma ThreeItems(a: Item, b: Item, c: Item)
    ensures Total([a, b, c]) == ItemWeight(a) + ItemWeight(b) + ItemWeight(c)
    ensures ItemsKnown([a, b, c]) <==> ItemKnown(a) && ItemKnown(b) && ItemKnown(c)
  {
    var items := [a, b, c];
    assert items[1..] == [b, c];
    TwoItems(b, c);
    HeadAndTail(items);
  }

  lemma KnownAppend(a: seq<Item>, b: seq<Item>)
    ensures ItemsKnown(a + b) <==> ItemsKnown(a) && ItemsKnown(b)
  {
    var c := a + b;
    assert forall k :: 0 <= k < |a| ==> a[k] == c[k];
    assert forall k :: 0 <= k < |b| ==> b[k] == c[|a| + k];
  }

  predicate TreeAllowed(body: Node) {
    1 + Weight(body) <= MAX_NODES && AllKnown(body)
  }

  /** `_validate_tree`: the walk takes nodes from the front of a queue and adds their children at its end. */
  method ValidateTree(body: Node) returns (ok: bool)
    ensures ok <==> TreeAllowed(body)
  {
    var count: nat := 0;
    var todo := [Root(body)];
    assert todo[1..] == [];
    while todo != []
      invariant count <= MAX_NODES && count + Total(todo) == 1 + Weight(body)
      invariant ItemsKnown(todo) <==> AllKnown(body)
      decreases Total(todo)
    {
      var item, rest := todo[0], todo[1..];
      HeadAndTail(todo);
      ChildrenTotal(item);
      TotalAppend(rest, Children(item));
      KnownAppend(rest, Children(item));
      hide AllKnown, Weight, ItemsKnown;
      count := count + 1;
      if count > MAX_NODES { return false; }
      if !Known(item) { return false; }
      todo := rest + Children(item);
    }
    return true;
  }

  // ---------- Evaluation ----------

  /** Integers the run has computed, none of them too wide. */
  ghost predicate Narrow(produced: set<int>) {
    forall n <- produced :: Width(n) <= MAX_INT_BITS + 1
  }

  function Computed(r: Result<Value>): set<int> {
    if r.Ok? && r.value.I? then {r.value.n} else {}
  }

  lemma NarrowWith(produced: set<int>, r: Result<Value>)
    requires Narrow(produced) && (r.Ok? ==> Within(r.value, MAX_INT_BITS + 1))
    ensures Narrow(produced + Computed(r))
  {
  }

  lemma BinOpMeans(left: Node, op: Operator, right: Node, h: Host)
    ensures var a, b := ValueOf(left, h), ValueOf(right, h);
            ValueOf(BinOp(left, op, right), h)
            == if op.OtherOperator? then Err(NotAllowed)
               else if a.Err? then a
               else if b.Err? then b
               else Checked(Operate(op, a.value, b.value, h), h)
  {
    hide Operate, CheckNumber;
  }

  class Evaluator {
    const host: Host
    var steps: nat
    ghost var produced: set<int>   // every integer an operator or function computed, before it is checked

    constructor (h: Host)
      ensures host == h && steps == 0 && produced == {}
    {
      host := h;
      steps, produced := 0, {};
    }

    /** The value, unless the step limit stopped the evaluation. */
    ghost predicate Gives<T>(r: Result<T>, meant: Result<T>, weight: nat, before: nat)
      reads this
    {
      && before <= steps <= before + weight
      && (r == meant || (r == Err(TooComplex) && steps > MAX_STEPS))
      && Narrow(produced)
    }

    /** `_Evaluator.eval`. */
    method Eval(node: Node) returns (r: Result<Value>)
      requires Sound(host) && Narrow(produced)
      modifies this
      ensures Gives(r, ValueOf(node, host), Weight(node), old(steps))
      decreases node, 1
    {
      hide Sound, Lookup, Operate, Invoke, Narrow, Bits, CheckNumber;
      steps := steps + 1;
      if steps > MAX_STEPS { return Err(TooComplex); }
      match node {
        case Constant(value) =>
          match value {
            case IntLit(n) => return CheckNumber(I(n), host);
            case FloatLit(x) => return CheckNumber(F(x), host);
            case OtherLit => return Err(NotAllowed);
          }
        case Name(id) => return if id in host.constants then Ok(F(host.constants[id])) else Err(UnknownName);
        case BinOp(left, op, right) => r := EvalBinOp(left, op, right);
        case UnaryOp(sign, operand) =>
          r := Eval(operand);
          if r.Ok? { r := Signed(sign, r.value, host); }
        case Call(func, args, keywords) => r := EvalCall(func, args, keywords);
        case Foreign(_) => return Err(NotAllowed);
      }
    }

    method EvalBinOp(left: Node, op: Operator, right: Node) returns (r: Result<Value>)
      requires Sound(host) && Narrow(produced)
      modifies this
      ensures Gives(r, ValueOf(BinOp(left, op, right), host), Weight(left) + Weight(right), old(steps))
      decreases BinOp(left, op, right), 0
    {
      BinOpMeans(left, op, right, host);
      hide Sound, Operate, Bits, Width, Within, CheckNumber, Narrow, Computed, ValueOf, Weight;
      if op.OtherOperator? { return Err(NotAllowed); }
      var a := Eval(left);
      if a.Err? { return a; }
      var b := Eval(right);
      if b.Err? { return b; }
      var raw := Operate(op, a.value, b.value, host);
      if raw.Err? { return raw; }
      ValueWithin(left, host);
      ValueWithin(right, host);
      OperateWithin(op, a.value, b.value, host);
      NarrowWith(produced, raw);
      produced := produced + Computed(raw);
      return CheckNumber(raw.value, host);
    }

    method EvalCall(func: Node, args: seq<Node>, keywords: nat) returns (r: Result<Value>)
      requires Sound(host) && Narrow(produced)
      modifies this
      ensures Gives(r, ValueOf(Call(func, args, keywords), host), Weights(args), old(steps))
      decreases Call(func, args, keywords), 0
    {
      hide Sound, Invoke, Bits, CheckNumber, Lookup, Narrow, Computed;
      if !func.Name? || keywords > 0 { return Err(NotAllowed); }
      var fn := Lookup(func.id);
      if fn.None? { return Err(UnknownFunction); }
      var vs := EvalArgs(args);
      if vs.Err? { return Err(vs.problem); }
      var raw := Invoke(fn.value, vs.value, host);
      if raw.Err? { return raw; }
      ValuesWithin(args, host);
      InvokeWithin(fn.value, vs.value, host);
      NarrowWith(produced, raw);
      produced := produced + Computed(raw);
      return CheckNumber(raw.value, host);
    }

    /** The arguments from left to right. */
    method EvalArgs(args: seq<Node>) returns (r: Result<seq<Value>>)
      requires Sound(host) && Narrow(produced)
      modifies this
      ensures Gives(r, ValuesOf(args, host), Weights(args), old(steps))
      decreases args, 0
    {
      hide Sound, Narrow;
      var values := [];
      assert args[0..] == args;
      PrependMore([], [], ValuesOf(args, host));
      for i := 0 to |args|
        invariant Narrow(produced)
        invariant ValuesOf(args, host) == Prepend(values, ValuesOf(args[i..], host))
        invariant old(steps) <= steps <= old(steps) + Weights(args) - Weights(args[i..])
      {
        assert args[i..][1..] == args[i + 1..];
        var v := Eval(args[i]);
        if v.Err? { return Err(v.problem); }
        PrependMore(values, [v.value], ValuesOf(args[i + 1..], host));
        values := values + [v.value];
      }
      assert args[|args|..] == [] && values + [] == values;
      return Ok(values);
    }
  }

  function Prepend(values: seq<Value>, rest: Result<seq<Value>>): Result<seq<Value>> {
    match rest
    case Err(p) => Err(p)
    case Ok(vs) => Ok(values + vs)
  }

  lemma PrependMore(a: seq<Value>, b: seq<Value>, rest: Result<seq<Value>>)
    ensures Prepend(a, Prepend(b, rest)) == Prepend(a + b, rest)
    ensures Prepend([], rest) == rest
  {
    if rest.Ok? {
      assert a + (b + rest.value) == (a + b) + rest.value;
      assert [] + rest.value == rest.value;
    }
  }

  /** `evaluate` with the default functions and constants; `parse` is the platform's parser. */
  method Evaluate(expression: string, parse: string -> Option<Node>, h: Host)
    returns (r: Result<Value>, ghost produced: set<int>)
    requires Sound(h)
    ensures var text := Carets(Stripped(expression));
            var tree := parse(text);
            r == if TextAllowed(text) && tree.Some? && TreeAllowed(tree.value) then ValueOf(tree.value, h)
                 else Err(NotAllowed)
    ensures r != Err(TooComplex)
    ensures forall n <- produced :: Width(n) <= 4097
  {
    produced := {};
    var text := Carets(Stripped(expression));
    var textOk := Precheck(text);
    if !textOk { return Err(NotAllowed), {}; }
    var parsed := parse(text);
    if parsed.None? { return Err(NotAllowed), {}; }
    var treeOk := ValidateTree(parsed.value);
    if !treeOk { return Err(NotAllowed), {}; }
    var e := new Evaluator(h);
    r := e.Eval(parsed.value);
    ValueNeedsNoLimit(parsed.value, h);
    produced := e.produced;
  }
}
