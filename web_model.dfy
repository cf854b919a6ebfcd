/**
  The web platform's `preTransformNode` hook for `r-model` on inputs whose
  `type` is dynamic.  Before the parser processes such an `<input>`, the
  hook replaces it by three clones chained as an if / else-if / else group:
  one with `type="checkbox"`, one with `type="radio"`, and one keeping the
  dynamic `:type`, so that each branch gets the `r-model` code of its kind.
 */
module WebModel {
  import opened Js
  import opened Ast

  /** `map[':type'] || map['r-bind:type']`: the type is bound directly. */
  predicate TypeAttrBound(m: map<string, string>)
  {
    Truthy(Lookup(m, ":type")) || Truthy(Lookup(m, "r-bind:type"))
  }

  /**
    The expression the chain switches on: the bound `type`, or else
    `(obj).type` for an `r-bind="obj"` when there is no static `type`.
   */
  function TypeBinding(m: map<string, string>): Option<string>
  {
    var bound := if TypeAttrBound(m) then BindingValue(m, "type", true) else None;
    if !Truthy(Lookup(m, "type")) && !Truthy(bound) && Truthy(Lookup(m, "r-bind"))
    then Some("(" + m["r-bind"] + ").type")
    else bound
  }

  /** Where the type binding comes from, in order of precedence. */
  lemma TypeBindingSources(m: map<string, string>)
    ensures Truthy(Lookup(m, ":type")) ==> TypeBinding(m) == Some(m[":type"])
    ensures !Truthy(Lookup(m, ":type")) && Truthy(Lookup(m, "r-bind:type"))
      ==> TypeBinding(m) == Some(m["r-bind:type"])
    ensures !TypeAttrBound(m) && !Truthy(Lookup(m, "type")) && Truthy(Lookup(m, "r-bind"))
      ==> TypeBinding(m) == Some("(" + m["r-bind"] + ").type")
    ensures Truthy(TypeBinding(m))
      <==> TypeAttrBound(m) || (!Truthy(Lookup(m, "type")) && Truthy(Lookup(m, "r-bind")))
  {
    assert ":" + "type" == ":type";
    assert "r-bind:" + "type" == "r-bind:type";
  }

  /** The hook rewrites the element: an `input` with a truthy `r-model` and a type binding. */
  predicate Expands(tag: string, m: map<string, string>)
  {
    tag == "input" && Truthy(Lookup(m, "r-model")) && Truthy(TypeBinding(m))
  }

  /** The condition of the branch for `inputType`: `(tb)==='inputType'`, then `&&(c)` for a truthy `r-if="c"`. */
  function BranchCondition(typeBinding: string, inputType: string, ifCondition: Option<string>): (c: string)
    ensures Truthy(ifCondition) ==> c == "(" + typeBinding + ")==='" + inputType + "'&&(" + ifCondition.value + ")"
    ensures !Truthy(ifCondition) ==> c == "(" + typeBinding + ")==='" + inputType + "'"
  {
    if Truthy(ifCondition) then "(" + typeBinding + ")==='" + inputType + "'&&(" + ifCondition.value + ")"
    else "(" + typeBinding + ")==='" + inputType + "'"
  }

  /** The checkbox and the radio branch never share a condition. */
  lemma CheckboxRadioDiffer(typeBinding: string, ifCondition: Option<string>)
    ensures BranchCondition(typeBinding, "checkbox", ifCondition) != BranchCondition(typeBinding, "radio", ifCondition)
  {
    var n := |typeBinding| + 6;
    var prefix := "(" + typeBinding + ")==='";
    assert |prefix| == n;
    assert BranchCondition(typeBinding, "checkbox", ifCondition)[n] == "checkbox"[0];
    assert BranchCondition(typeBinding, "radio", ifCondition)[n] == "radio"[0];
  }

  /** The `r-else-if` the head keeps: a truthy one, and only when there is no `r-else`. */
  function ElseIf(m: map<string, string>): Option<string>
  {
    if "r-else" !in m && Truthy(Lookup(m, "r-else-if")) then Lookup(m, "r-else-if") else None
  }

  /** The list once `r-if`, `r-else` and `r-else-if` have been read off it. */
  function ConditionsTaken(m: map<string, string>, attrs: seq<Attr>): seq<Attr>
  {
    RemoveListed(m, RemoveListed(m, RemoveListed(m, attrs, "r-if"), "r-else"), "r-else-if")
  }

  /** The list once a directly bound `type` has been read off it. */
  function TypeTaken(m: map<string, string>, attrs: seq<Attr>): seq<Attr>
  {
    if TypeAttrBound(m) then BindingAttrsList(m, attrs, "type", true) else attrs
  }

  /** el.attrsList once the type binding and the conditions have been read off it. */
  function StrippedAttrs(m: map<string, string>, attrs: seq<Attr>): seq<Attr>
  {
    ConditionsTaken(m, TypeTaken(m, attrs))
  }

  /** The list every clone starts from: the stripped list without `r-for`. */
  function BranchAttrs(stripped: seq<Attr>): seq<Attr>
  {
    RemoveListed(MakeAttrsMap(stripped), stripped, "r-for")
  }

  /** getBindingAttr keeps the names of a duplicate-free list inside the map. */
  lemma BindingAttrsListNames(m: map<string, string>, attrs: seq<Attr>, name: string, getStatic: bool)
    requires UniqueNames(attrs) && Names(attrs) <= m.Keys
    ensures UniqueNames(BindingAttrsList(m, attrs, name, getStatic))
    ensures Names(BindingAttrsList(m, attrs, name, getStatic)) <= Names(attrs)
  {
    var l1 := RemoveListed(m, attrs, ":" + name);
    RemoveListedNames(m, attrs, ":" + name);
    var l2 := if Truthy(Lookup(m, ":" + name)) then l1 else RemoveListed(m, l1, "r-bind:" + name);
    RemoveListedNames(m, l1, "r-bind:" + name);
    RemoveListedNames(m, l2, name);
  }

  /**
    None of the clones carries the element's `r-if`, `r-else` or `r-else-if`
    (they become the chain), and none carries `r-for` in its list (only the
    first branch records it), provided the list had no duplicate names and
    the map knew all of them.
   */
  lemma ClonesDropDirectives(m: map<string, string>, attrs: seq<Attr>)
    requires UniqueNames(attrs) && Names(attrs) <= m.Keys
    ensures var s := StrippedAttrs(m, attrs);
      UniqueNames(s) && Names(s) !! {"r-if", "r-else", "r-else-if"}
    ensures var b := BranchAttrs(StrippedAttrs(m, attrs));
      UniqueNames(b) && Names(b) !! {"r-if", "r-else", "r-else-if", "r-for"}
  {
    var bound := TypeTaken(m, attrs);
    BindingAttrsListNames(m, attrs, "type", true);
    var l1 := RemoveListed(m, bound, "r-if");
    RemoveListedNames(m, bound, "r-if");
    var l2 := RemoveListed(m, l1, "r-else");
    RemoveListedNames(m, l1, "r-else");
    var s := RemoveListed(m, l2, "r-else-if");
    RemoveListedNames(m, l2, "r-else-if");
    assert s == StrippedAttrs(m, attrs);
    var sm := MakeAttrsMap(s);
    assert Names(s) <= sm.Keys;
    RemoveListedNames(sm, s, "r-for");
  }

  /**
    getAndRemoveAttr splices out only the first entry of a name, so with two
    `r-if` attributes the second one stays on the element and on every clone.
   */
  lemma DuplicateIfSurvives(x: string, y: string)
    ensures var attrs := [Attr("r-if", x), Attr("r-if", y)];
      var stripped := StrippedAttrs(MakeAttrsMap(attrs), attrs);
      stripped == [Attr("r-if", y)] && BranchAttrs(stripped) == [Attr("r-if", y)]
  {
    var attrs := [Attr("r-if", x), Attr("r-if", y)];
    var m := MakeAttrsMap(attrs);
    assert "r-if" in m && "r-else" !in m && "r-else-if" !in m && !TypeAttrBound(m);
    assert FirstIndex(attrs, "r-if") == 0;
    assert RemoveListed(m, attrs, "r-if") == [Attr("r-if", y)];
    assert "r-for" !in MakeAttrsMap([Attr("r-if", y)]);
  }

  /** cloneASTElement(el): a fresh element over a copy of the list, with the same tag and parent. */
  method CloneASTElement(el: Element) returns (c: Element)
    ensures fresh(c)
    ensures c.tag == el.tag && c.parent == el.parent
    ensures c.attrsList == el.attrsList && c.attrsMap == MakeAttrsMap(el.attrsList)
    ensures c.Unprocessed()
  {
    c := new Element(el.tag, el.attrsList, el.parent);
  }

  /** `b` is a clone of an element with this tag and parent, now holding `attrs` and `m`, with nothing processed. */
  ghost predicate PlainBranch(b: Element, tag: string, parent: Element?, attrs: seq<Attr>, m: map<string, string>)
    reads b
  {
    b.tag == tag && b.parent == parent && b.attrsList == attrs && b.attrsMap == m && b.Unprocessed()
  }

  /** Reads the type binding off the element, taking the bound `type` attribute from its list. */
  method ReadTypeBinding(el: Element) returns (typeBinding: Option<string>)
    modifies el`attrsList, el`attrsMap
    ensures typeBinding == TypeBinding(old(el.attrsMap))
    ensures el.attrsList == TypeTaken(old(el.attrsMap), old(el.attrsList))
    ensures !Truthy(typeBinding) ==> el.attrsList == old(el.attrsList)
    ensures el.attrsMap == old(el.attrsMap)
  {
    TypeBindingSources(el.attrsMap);
    var m := el.attrsMap;
    typeBinding := None;
    if Truthy(Lookup(m, ":type")) || Truthy(Lookup(m, "r-bind:type")) {
      typeBinding := el.GetBindingAttr("type", true);
    }
    if !Truthy(Lookup(m, "type")) && !Truthy(typeBinding) && Truthy(Lookup(m, "r-bind")) {
      typeBinding := Some("(" + m["r-bind"] + ").type");
    }
  }

  /** Takes `r-if`, `r-else` and `r-else-if` off the element, list and map, and returns what they held. */
  method TakeConditions(el: Element) returns (ifCondition: Option<string>, hasElse: bool, elseIfCondition: Option<string>)
    modifies el`attrsList, el`attrsMap
    ensures ifCondition == Lookup(old(el.attrsMap), "r-if")
    ensures hasElse == ("r-else" in old(el.attrsMap))
    ensures elseIfCondition == Lookup(old(el.attrsMap), "r-else-if")
    ensures el.attrsList == ConditionsTaken(old(el.attrsMap), old(el.attrsList))
    ensures el.attrsMap == old(el.attrsMap) - {"r-if", "r-else", "r-else-if"}
  {
    var m := el.attrsMap;
    ifCondition := el.GetAndRemoveAttr("r-if", true);
    var elseCondition := el.GetAndRemoveAttr("r-else", true);
    hasElse := elseCondition.Some?;
    elseIfCondition := el.GetAndRemoveAttr("r-else-if", true);
    assert Lookup(m - {"r-if"}, "r-else") == Lookup(m, "r-else");
    assert Lookup(m - {"r-if"} - {"r-else"}, "r-else-if") == Lookup(m, "r-else-if");
  }

  /** Branch 0: the checkbox clone, which runs processFor and carries `condition` and the else flags. */
  ghost predicate CheckboxHead(b: Element, el: Element, condition: string, isElse: bool, elseIf: Option<string>)
    reads b`tag, b`parent, b`attrsList, b`attrsMap, b`forExp, b`processed, b`ifExp, b`isElse, b`elseIf
    reads el`tag, el`parent, el`attrsList
  {
    var sm := MakeAttrsMap(el.attrsList);
    && b.tag == el.tag && b.parent == el.parent
    && b.attrsList == BranchAttrs(el.attrsList) + [Attr("type", "checkbox")]
    && b.attrsMap == sm["type" := "checkbox"]
    && b.forExp == (if Truthy(Lookup(sm, "r-for")) then Lookup(sm, "r-for") else None)
    && b.processed && b.ifExp == Some(condition) && b.isElse == isElse && b.elseIf == elseIf
  }

  /**
    The chain `b` heads: itself under the checkbox condition, a radio clone
    under the radio condition, and a clone keeping the dynamic `:type` under
    the element's own `r-if`; the three are distinct objects.
   */
  ghost predicate Chain(b: Element, el: Element, typeBinding: string, ifCondition: Option<string>)
    reads b`ifConditions, b`ifExp, el`tag, el`parent, el`attrsList
    reads set i | 1 <= i < |b.ifConditions| :: b.ifConditions[i].block
  {
    var sm := MakeAttrsMap(el.attrsList) - {"r-for"};
    && |b.ifConditions| == 3
    && b.ifConditions[0] == IfCondition(b.ifExp, b)
    && b.ifConditions[1].exp == Some(BranchCondition(typeBinding, "radio", ifCondition))
    && b.ifConditions[2].exp == ifCondition
    && b.ifConditions[1].block != b && b.ifConditions[2].block != b
    && b.ifConditions[1].block != b.ifConditions[2].block
    && PlainBranch(b.ifConditions[1].block, el.tag, el.parent,
                   BranchAttrs(el.attrsList) + [Attr("type", "radio")], sm["type" := "radio"])
    && PlainBranch(b.ifConditions[2].block, el.tag, el.parent,
                   BranchAttrs(el.attrsList) + [Attr(":type", typeBinding)], sm[":type" := typeBinding])
  }

  /**
    Builds the three clones of `el` and chains them on the first.  The else
    flags of the head are set when the head is made; the hook sets them
    last, but nothing reads them in between.
   */
  method BuildChain(el: Element, typeBinding: string, ifCondition: Option<string>, isElse: bool, elseIf: Option<string>)
    returns (branch0: Element)
    ensures fresh(branch0)
    ensures CheckboxHead(branch0, el, BranchCondition(typeBinding, "checkbox", ifCondition), isElse, elseIf)
    ensures Chain(branch0, el, typeBinding, ifCondition)
    ensures fresh(branch0.ifConditions[1].block) && fresh(branch0.ifConditions[2].block)
  {
    var checkbox := BranchCondition(typeBinding, "checkbox", ifCondition);
    var radio := BranchCondition(typeBinding, "radio", ifCondition);
    // 1. checkbox
    branch0 := CheckboxBranch(el, checkbox, isElse, elseIf);
    // 2. radio
    var branch1 := TypedBranch(el, "type", "radio");
    branch0.AddIfCondition(IfCondition(Some(radio), branch1));
    // 3. other
    var branch2 := TypedBranch(el, ":type", typeBinding);
    branch0.AddIfCondition(IfCondition(ifCondition, branch2));
    assert branch0.ifConditions
      == [IfCondition(Some(checkbox), branch0), IfCondition(Some(radio), branch1), IfCondition(ifCondition, branch2)];
  }

  /** Branch 0 on its own: a clone that runs processFor, gets `type="checkbox"` and heads its chain. */
  method CheckboxBranch(el: Element, condition: string, isElse: bool, elseIf: Option<string>) returns (b: Element)
    ensures fresh(b)
    ensures CheckboxHead(b, el, condition, isElse, elseIf)
    ensures b.ifConditions == [IfCondition(Some(condition), b)]
  {
    var sm := MakeAttrsMap(el.attrsList);
    b := CloneASTElement(el);
    b.ProcessFor();
    b.AddRawAttr("type", "checkbox");
    assert b.attrsList == BranchAttrs(el.attrsList) + [Attr("type", "checkbox")];
    assert b.attrsMap == sm["type" := "checkbox"];
    assert b.forExp == if Truthy(Lookup(sm, "r-for")) then Lookup(sm, "r-for") else None;
    b.processed := true;
    b.ifExp := Some(condition);
    b.AddIfCondition(IfCondition(b.ifExp, b));
    b.isElse := isElse;
    b.elseIf := elseIf;
  }

  /** Branches 1 and 2: a clone without `r-for` and with one raw attribute added. */
  method TypedBranch(el: Element, name: string, value: string) returns (b: Element)
    ensures fresh(b)
    ensures PlainBranch(b, el.tag, el.parent, BranchAttrs(el.attrsList) + [Attr(name, value)],
                        (MakeAttrsMap(el.attrsList) - {"r-for"})[name := value])
  {
    var sm := MakeAttrsMap(el.attrsList);
    b := CloneASTElement(el);
    var _ := b.GetAndRemoveAttr("r-for", true);
    assert b.attrsList == BranchAttrs(el.attrsList) && b.attrsMap == sm - {"r-for"};
    b.AddRawAttr(name, value);
    assert b.tag == el.tag && b.parent == el.parent;
    assert b.attrsList == BranchAttrs(el.attrsList) + [Attr(name, value)];
    assert b.attrsMap == (sm - {"r-for"})[name := value];
    assert b.Unprocessed();
  }

  /**
    The rewrite proper, once the type binding is known: the element's
    conditions are taken off it, its three clones are chained, and an
    `r-else` or else a truthy `r-else-if` moves to the head of the chain.
   */
  method Expand(el: Element, typeBinding: string) returns (branch0: Element)
    modifies el`attrsList, el`attrsMap
    ensures el.attrsList == ConditionsTaken(old(el.attrsMap), old(el.attrsList))
    ensures el.attrsMap == old(el.attrsMap) - {"r-if", "r-else", "r-else-if"}
    ensures fresh(branch0)
    // An `r-else` wins over an `r-else-if`.
    ensures CheckboxHead(branch0, el, BranchCondition(typeBinding, "checkbox", Lookup(old(el.attrsMap), "r-if")),
                         "r-else" in old(el.attrsMap), ElseIf(old(el.attrsMap)))
    ensures Chain(branch0, el, typeBinding, Lookup(old(el.attrsMap), "r-if"))
    ensures fresh(branch0.ifConditions[1].block) && fresh(branch0.ifConditions[2].block)
  {
    var ifCondition, hasElse, elseIfCondition := TakeConditions(el);
    var elseIf := None;
    if !hasElse && Truthy(elseIfCondition) {
      elseIf := elseIfCondition;
    }
    branch0 := BuildChain(el, typeBinding, ifCondition, hasElse, elseIf);
  }

  /**
    preTransformNode(el): returns the head of the three-branch chain, or
    null when the element is not rewritten (in which case it is untouched).
    The clones are built from the element once its type binding and
    conditions have been taken off it.
   */
  method PreTransformNode(el: Element) returns (branch0: Element?)
    modifies el`attrsList, el`attrsMap
    ensures !Expands(old(el.tag), old(el.attrsMap)) ==>
      branch0 == null && el.attrsList == old(el.attrsList) && el.attrsMap == old(el.attrsMap)
    ensures Expands(old(el.tag), old(el.attrsMap)) ==>
      && el.attrsList == StrippedAttrs(old(el.attrsMap), old(el.attrsList))
      && el.attrsMap == old(el.attrsMap) - {"r-if", "r-else", "r-else-if"}
    ensures Expands(old(el.tag), old(el.attrsMap)) ==>
      var m := old(el.attrsMap);
      var tb := TypeBinding(m).value;
      && branch0 != null && fresh(branch0)
      && CheckboxHead(branch0, el, BranchCondition(tb, "checkbox", Lookup(m, "r-if")), "r-else" in m, ElseIf(m))
      && Chain(branch0, el, tb, Lookup(m, "r-if"))
      && fresh(branch0.ifConditions[1].block) && fresh(branch0.ifConditions[2].block)
  {
    branch0 := null;
    if el.tag == "input" {
      if !Truthy(Lookup(el.attrsMap, "r-model")) {
        return;
      }
      var typeBinding := ReadTypeBinding(el);
      if Truthy(typeBinding) {
        branch0 := Expand(el, typeBinding.value);
      }
    }
  }
}
