/**
  The template element record that the compiler's hooks mutate, and the
  parser helpers they call on it.  The helpers live in the compiler's
  `helpers` and `parser/index` files, which are not part of this model; here
  they are simple operations on the element's attribute list and attribute
  map:
  - getAndRemoveAttr reads the map and drops the first list entry of that
    name (only when the map has the name), and deletes the map entry only
    when asked to;
  - getBindingAttr tries `:name`, then `r-bind:name`, then (unless told not
    to) the static `name`, which it quotes; filter expressions in a binding
    are passed through unchanged;
  - addRawAttr sets the map entry and appends to the list;
  - createASTElement builds the map from the list, a later entry of the
    same name overriding an earlier one.
 */
module Ast {
  import opened Js

  datatype Attr = Attr(name: string, value: string)

  /** One branch of an if-chain: its condition (absent for a final else) and its node. */
  datatype IfCondition = IfCondition(exp: Option<string>, block: Element)

  /** What genComponentModel records on an element for a two-way binding. */
  datatype ModelBinding = ModelBinding(value: string, expression: string, callback: string)

  /** Index of the first attribute called `name`, or -1. */
  function FirstIndex(attrs: seq<Attr>, name: string): (i: int)
    ensures -1 <= i < |attrs|
    ensures i >= 0 ==> attrs[i].name == name && forall j :: 0 <= j < i ==> attrs[j].name != name
    ensures i < 0 ==> forall j :: 0 <= j < |attrs| ==> attrs[j].name != name
  {
    if attrs == [] then -1
    else if attrs[0].name == name then 0
    else
      var k := FirstIndex(attrs[1..], name);
      if k < 0 then -1 else k + 1
  }

  /** The list with its first attribute called `name` spliced out. */
  function RemoveFirst(attrs: seq<Attr>, name: string): (r: seq<Attr>)
    ensures (forall j :: 0 <= j < |attrs| ==> attrs[j].name != name) ==> r == attrs
    ensures (exists j :: 0 <= j < |attrs| && attrs[j].name == name) ==> |r| == |attrs| - 1
  {
    var i := FirstIndex(attrs, name);
    if i < 0 then attrs else attrs[..i] + attrs[i + 1..]
  }

  /** What getAndRemoveAttr does to the list: it splices only names the map knows. */
  function RemoveListed(m: map<string, string>, attrs: seq<Attr>, name: string): seq<Attr>
  {
    if name in m then RemoveFirst(attrs, name) else attrs
  }

  /** The names an attribute list carries. */
  function Names(attrs: seq<Attr>): set<string>
  {
    set i | 0 <= i < |attrs| :: attrs[i].name
  }

  /** No name occurs twice in the list (the parser warns on duplicate attributes). */
  predicate UniqueNames(attrs: seq<Attr>)
  {
    forall i, j :: 0 <= i < j < |attrs| ==> attrs[i].name != attrs[j].name
  }

  /** `r` is `attrs` with the entry at `i` spliced out. */
  predicate Spliced(attrs: seq<Attr>, r: seq<Attr>, i: int)
  {
    && 0 <= i < |attrs| && |r| == |attrs| - 1
    && (forall j :: 0 <= j < i ==> r[j] == attrs[j])
    && (forall j :: i <= j < |r| ==> r[j] == attrs[j + 1])
  }

  lemma SplicedUnique(attrs: seq<Attr>, r: seq<Attr>, i: int)
    requires Spliced(attrs, r, i) && UniqueNames(attrs)
    ensures UniqueNames(r)
  {
    forall j, k | 0 <= j < k < |r|
      ensures r[j].name != r[k].name
    {
      var j' := if j < i then j else j + 1;
      var k' := if k < i then k else k + 1;
      assert r[j] == attrs[j'] && r[k] == attrs[k'] && j' < k';
    }
  }

  lemma SplicedNames(attrs: seq<Attr>, r: seq<Attr>, i: int)
    requires Spliced(attrs, r, i) && UniqueNames(attrs)
    ensures Names(r) == Names(attrs) - {attrs[i].name}
  {
    forall x | x in Names(r)
      ensures x in Names(attrs) - {attrs[i].name}
    {
      var j :| 0 <= j < |r| && r[j].name == x;
      var j' := if j < i then j else j + 1;
      assert r[j] == attrs[j'] && j' != i;
    }
    forall x | x in Names(attrs) - {attrs[i].name}
      ensures x in Names(r)
    {
      var j :| 0 <= j < |attrs| && attrs[j].name == x;
      var j' := if j < i then j else j - 1;
      assert r[j'] == attrs[j];
    }
  }

  /** Splicing out the first `name` of a list without duplicates leaves every other name and no `name`. */
  lemma RemoveFirstNames(attrs: seq<Attr>, name: string)
    requires UniqueNames(attrs)
    ensures UniqueNames(RemoveFirst(attrs, name))
    ensures Names(RemoveFirst(attrs, name)) == Names(attrs) - {name}
  {
    var i := FirstIndex(attrs, name);
    if i >= 0 {
      var r := attrs[..i] + attrs[i + 1..];
      assert Spliced(attrs, r, i);
      SplicedUnique(attrs, r, i);
      SplicedNames(attrs, r, i);
    }
  }

  /** What getAndRemoveAttr does to a list whose names the map all knows. */
  lemma RemoveListedNames(m: map<string, string>, attrs: seq<Attr>, name: string)
    requires UniqueNames(attrs) && Names(attrs) <= m.Keys
    ensures UniqueNames(RemoveListed(m, attrs, name))
    ensures Names(RemoveListed(m, attrs, name)) == Names(attrs) - {name}
  {
    RemoveFirstNames(attrs, name);
  }

  /** makeAttrsMap: the map from each attribute's name to its value. */
  function MakeAttrsMap(attrs: seq<Attr>): (m: map<string, string>)
    ensures m.Keys == Names(attrs)
  {
    if attrs == [] then map[]
    else
      var init := attrs[..|attrs| - 1];
      var last := attrs[|attrs| - 1];
      assert attrs == init + [last];
      assert Names(attrs) == Names(init) + {last.name};
      MakeAttrsMap(init)[last.name := last.value]
  }

  /** The dynamic form of binding `name`: `:name` when truthy, else `r-bind:name`. */
  function DynamicBinding(m: map<string, string>, name: string): (v: Option<string>)
    ensures Truthy(Lookup(m, ":" + name)) ==> v == Lookup(m, ":" + name)
    ensures !Truthy(Lookup(m, ":" + name)) ==> v == Lookup(m, "r-bind:" + name)
  {
    var bound := Lookup(m, ":" + name);
    if Truthy(bound) then bound else Lookup(m, "r-bind:" + name)
  }

  /** What getBindingAttr returns. */
  function BindingValue(m: map<string, string>, name: string, getStatic: bool): (v: Option<string>)
    ensures DynamicBinding(m, name).Some? ==> v == DynamicBinding(m, name)
    ensures DynamicBinding(m, name).None? && getStatic && name in m ==> v == Some(Quote(m[name]))
    ensures DynamicBinding(m, name).None? && (!getStatic || name !in m) ==> v.None?
  {
    var dynamicValue := DynamicBinding(m, name);
    if dynamicValue.Some? then dynamicValue
    else if getStatic && name in m then Some(Quote(m[name]))
    else None
  }

  /** The attribute list once getBindingAttr has taken what it read. */
  function BindingAttrsList(m: map<string, string>, attrs: seq<Attr>, name: string, getStatic: bool): seq<Attr>
  {
    var l1 := RemoveListed(m, attrs, ":" + name);
    var l2 := if Truthy(Lookup(m, ":" + name)) then l1 else RemoveListed(m, l1, "r-bind:" + name);
    if DynamicBinding(m, name).None? && getStatic then RemoveListed(m, l2, name) else l2
  }

  /** An element node of the template AST (ASTElement). */
  class Element {
    var tag: string
    var attrsList: seq<Attr>
    var attrsMap: map<string, string>
    var parent: Element?
    /** The `r-for` expression once processFor has taken it (its alias split is not modelled). */
    var forExp: Option<string>
    var processed: bool
    /** `el.if`, `el.else`, `el.elseif` */
    var ifExp: Option<string>
    var isElse: bool
    var elseIf: Option<string>
    var ifConditions: seq<IfCondition>
    var staticClass: Option<string>
    var classBinding: Option<string>
    var staticStyle: Option<string>
    var styleBinding: Option<string>
    var model: Option<ModelBinding>

    /** No structural directive processed, no module field set yet. */
    ghost predicate Unprocessed()
      reads this
    {
      && forExp.None? && !processed
      && ifExp.None? && !isElse && elseIf.None? && ifConditions == []
      && staticClass.None? && classBinding.None?
      && staticStyle.None? && styleBinding.None?
      && model.None?
    }

    /** createASTElement(tag, attrs, parent) */
    constructor (tag: string, attrs: seq<Attr>, parent: Element?)
      ensures this.tag == tag && this.parent == parent
      ensures attrsList == attrs && attrsMap == MakeAttrsMap(attrs)
      ensures Unprocessed()
    {
      this.tag := tag;
      this.parent := parent;
      attrsList := attrs;
      attrsMap := MakeAttrsMap(attrs);
      forExp := None;
      processed := false;
      ifExp := None;
      isElse := false;
      elseIf := None;
      ifConditions := [];
      staticClass := None;
      classBinding := None;
      staticStyle := None;
      styleBinding := None;
      model := None;
    }

    /** getAndRemoveAttr(el, name, removeFromMap) */
    method GetAndRemoveAttr(name: string, removeFromMap: bool) returns (v: Option<string>)
      modifies this`attrsList, this`attrsMap
      ensures v == Lookup(old(attrsMap), name)
      ensures attrsList == RemoveListed(old(attrsMap), old(attrsList), name)
      ensures attrsMap == if removeFromMap then old(attrsMap) - {name} else old(attrsMap)
    {
      v := Lookup(attrsMap, name);
      if v.Some? {
        attrsList := RemoveFirst(attrsList, name);
      }
      if removeFromMap {
        attrsMap := attrsMap - {name};
      }
    }

    /** getBindingAttr(el, name, getStatic) */
    method GetBindingAttr(name: string, getStatic: bool) returns (v: Option<string>)
      modifies this`attrsList, this`attrsMap
      ensures v == BindingValue(old(attrsMap), name, getStatic)
      ensures attrsList == BindingAttrsList(old(attrsMap), old(attrsList), name, getStatic)
      ensures attrsMap == old(attrsMap)
    {
      var dynamicValue := GetAndRemoveAttr(":" + name, false);
      if !Truthy(dynamicValue) {
        dynamicValue := GetAndRemoveAttr("r-bind:" + name, false);
      }
      if dynamicValue.Some? {
        v := dynamicValue;
      } else if getStatic {
        var staticValue := GetAndRemoveAttr(name, false);
        v := if staticValue.Some? then Some(Quote(staticValue.value)) else None;
      } else {
        v := None;
      }
    }

    /** processFor(el): takes `r-for` off the list and records it (its alias split is not modelled). */
    method ProcessFor()
      modifies this`attrsList, this`attrsMap, this`forExp
      ensures attrsList == RemoveListed(old(attrsMap), old(attrsList), "r-for")
      ensures attrsMap == old(attrsMap)
      ensures forExp == if Truthy(Lookup(old(attrsMap), "r-for")) then Lookup(old(attrsMap), "r-for") else old(forExp)
    {
      var exp := GetAndRemoveAttr("r-for", false);
      if Truthy(exp) {
        forExp := exp;
      }
    }

    /** addRawAttr(el, name, value) */
    method AddRawAttr(name: string, value: string)
      modifies this`attrsList, this`attrsMap
      ensures attrsList == old(attrsList) + [Attr(name, value)]
      ensures attrsMap == old(attrsMap)[name := value]
    {
      attrsMap := attrsMap[name := value];
      attrsList := attrsList + [Attr(name, value)];
    }

    /** addIfCondition(el, condition) */
    method AddIfCondition(condition: IfCondition)
      modifies this`ifConditions
      ensures ifConditions == old(ifConditions) + [condition]
    {
      ifConditions := ifConditions + [condition];
    }
  }
}
