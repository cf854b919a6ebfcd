/**
  The web platform's class module: transformNode moves an element's static
  `class` and its bound `:class` into dedicated fields, and genData turns
  those fields into one `key:value,` fragment of the render data object.
 */
module ClassModule {
  import opened Js
  import opened Ast

  /** staticKeys: the element fields this module fills that hold static data. */
  function StaticKeys(): (keys: seq<string>)
    ensures "staticClass" in keys && "classBinding" !in keys
    ensures |keys| == 1
  {
    ["staticClass"]
  }

  /** What transformNode stores as the static class: the `class` attribute as a string literal, when truthy. */
  function StaticClass(m: map<string, string>): (s: Option<string>)
    ensures s.Some? <==> Truthy(Lookup(m, "class"))
    ensures s.Some? ==> s.value == Quote(m["class"]) && Unquote(s.value) == m["class"]
  {
    var staticClass := Lookup(m, "class");
    if Truthy(staticClass) then
      UnquoteQuote(staticClass.value);
      Some(Quote(staticClass.value))
    else None
  }

  /** What transformNode stores as the class binding: the non-static binding lookup, when truthy. */
  function ClassBinding(m: map<string, string>): (b: Option<string>)
    ensures b.Some? <==> Truthy(DynamicBinding(m, "class"))
    ensures b.Some? ==> b == DynamicBinding(m, "class")
  {
    var classBinding := BindingValue(m, "class", false);
    if Truthy(classBinding) then classBinding else None
  }

  /**
    transformNode(el): the static class is read (and left in the map) and
    the binding is read without falling back to the static value; a field
    is written only when its value is truthy, and no other field is.
   */
  method TransformNode(el: Element)
    modifies el`attrsList, el`attrsMap, el`staticClass, el`classBinding
    ensures el.staticClass == if StaticClass(old(el.attrsMap)).Some? then StaticClass(old(el.attrsMap)) else old(el.staticClass)
    ensures el.classBinding == if ClassBinding(old(el.attrsMap)).Some? then ClassBinding(old(el.attrsMap)) else old(el.classBinding)
    ensures el.attrsList
      == BindingAttrsList(old(el.attrsMap), RemoveListed(old(el.attrsMap), old(el.attrsList), "class"), "class", false)
    ensures el.attrsMap == old(el.attrsMap)
  {
    var staticClass := el.GetAndRemoveAttr("class", false);
    if Truthy(staticClass) {
      el.staticClass := Some(Quote(staticClass.value));
    }
    var classBinding := el.GetBindingAttr("class", false);
    if Truthy(classBinding) {
      el.classBinding := classBinding;
    }
  }

  /** The data key: `class` for a tag with a `-` (a custom element), else `className`. */
  function AttrName(tag: string): string
  {
    if '-' in tag then "class" else "className"
  }

  /** The `_rc(...)` call that merges a class binding with an optional static class. */
  function MergeCall(binding: string, staticClass: Option<string>): string
  {
    if staticClass.Some? then "_rc(" + binding + "," + staticClass.value + ")" else "_rc(" + binding + ")"
  }

  /**
    genData(el): nothing when neither field is set; otherwise exactly one
    fragment under the tag's key, whose value merges the binding with the
    static class through `_rc` when there is a binding, and is the static
    class itself when there is none.
   */
  function GenData(el: Element): (data: string)
    reads el
    ensures data == "" <==> !Truthy(el.staticClass) && !Truthy(el.classBinding)
    ensures Truthy(el.classBinding)
      ==> data == AttrName(el.tag) + ":" + MergeCall(el.classBinding.value, if Truthy(el.staticClass) then el.staticClass else None) + ","
    ensures Truthy(el.staticClass) && !Truthy(el.classBinding)
      ==> data == AttrName(el.tag) + ":" + el.staticClass.value + ","
  {
    var attrName := AttrName(el.tag);
    if Truthy(el.staticClass) && Truthy(el.classBinding) then
      attrName + ":_rc(" + el.classBinding.value + "," + el.staticClass.value + "),"
    else if Truthy(el.staticClass) || Truthy(el.classBinding) then
      attrName + ":" + (if Truthy(el.classBinding) then "_rc(" + el.classBinding.value + ")" else el.staticClass.value) + ","
    else
      ""
  }

  /** A non-empty fragment starts with its key and a colon and ends with a comma. */
  lemma GenDataFragment(el: Element)
    requires GenData(el) != ""
    ensures StartsWith(GenData(el), AttrName(el.tag) + ":")
    ensures EndsWith(GenData(el), ",")
  {
    var value := if Truthy(el.classBinding) then MergeCall(el.classBinding.value, if Truthy(el.staticClass) then el.staticClass else None)
                 else el.staticClass.value;
    assert GenData(el) == AttrName(el.tag) + ":" + value + ",";
    Affixes(AttrName(el.tag) + ":", value, ",");
  }

  /**
    transformNode then genData: the static class reaches the data object as
    a string literal and the binding as a raw expression; an element with
    neither contributes nothing.
   */
  lemma TransformedClassData(el: Element, m: map<string, string>)
    requires el.staticClass == StaticClass(m) && el.classBinding == ClassBinding(m)
    ensures GenData(el) == "" <==> !Truthy(Lookup(m, "class")) && !Truthy(DynamicBinding(m, "class"))
    ensures Truthy(Lookup(m, "class")) && Truthy(DynamicBinding(m, "class"))
      ==> GenData(el) == AttrName(el.tag) + ":_rc(" + DynamicBinding(m, "class").value + "," + Quote(m["class"]) + "),"
    ensures Truthy(Lookup(m, "class")) && !Truthy(DynamicBinding(m, "class"))
      ==> GenData(el) == AttrName(el.tag) + ":" + Quote(m["class"]) + ","
  {
  }
}
