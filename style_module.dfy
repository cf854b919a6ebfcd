/**
  The web platform's style module: transformNode moves an element's static
  `style` (as a JSON object literal) and its bound `:style` into dedicated
  fields, and genData turns them into the `style:` fragment of the render
  data object.  Turning the static style text into that JSON literal is a
  library routine that is not part of this model; it is the parameter
  `styleJson`.
 */
module StyleModule {
  import opened Js
  import opened Ast

  /** staticKeys: the element fields this module fills that hold static data. */
  function StaticKeys(): (keys: seq<string>)
    ensures "staticStyle" in keys && "styleBinding" !in keys
    ensures |keys| == 1
  {
    ["staticStyle"]
  }

  /** `{` … `}`: the text of a JSON object. */
  predicate ObjectLiteral(t: string)
  {
    |t| >= 2 && t[0] == '{' && t[|t| - 1] == '}'
  }

  /** The JSON text of a parsed style is always an object literal, so never empty. */
  ghost predicate WritesObjectLiterals(styleJson: string -> string)
  {
    forall text :: ObjectLiteral(styleJson(text))
  }

  /** What transformNode stores as the static style, when the `style` attribute is truthy. */
  function StaticStyle(m: map<string, string>, styleJson: string -> string): (s: Option<string>)
    requires WritesObjectLiterals(styleJson)
    ensures s.Some? <==> Truthy(Lookup(m, "style"))
    ensures s.Some? ==> s.value == styleJson(m["style"]) && ObjectLiteral(s.value) && Truthy(s)
  {
    var staticStyle := Lookup(m, "style");
    if Truthy(staticStyle) then Some(styleJson(staticStyle.value)) else None
  }

  /** What transformNode stores as the style binding: the non-static binding lookup, when truthy. */
  function StyleBinding(m: map<string, string>): (b: Option<string>)
    ensures b.Some? <==> Truthy(DynamicBinding(m, "style"))
    ensures b.Some? ==> b == DynamicBinding(m, "style")
  {
    var styleBinding := BindingValue(m, "style", false);
    if Truthy(styleBinding) then styleBinding else None
  }

  /**
    transformNode(el): like the class module's, a field is written only
    when its value is truthy, and no other field is.
   */
  method TransformNode(el: Element, styleJson: string -> string)
    requires WritesObjectLiterals(styleJson)
    modifies el`attrsList, el`attrsMap, el`staticStyle, el`styleBinding
    ensures el.staticStyle
      == if StaticStyle(old(el.attrsMap), styleJson).Some? then StaticStyle(old(el.attrsMap), styleJson) else old(el.staticStyle)
    ensures el.styleBinding == if StyleBinding(old(el.attrsMap)).Some? then StyleBinding(old(el.attrsMap)) else old(el.styleBinding)
    ensures el.attrsList
      == BindingAttrsList(old(el.attrsMap), RemoveListed(old(el.attrsMap), old(el.attrsList), "style"), "style", false)
    ensures el.attrsMap == old(el.attrsMap)
  {
    var staticStyle := el.GetAndRemoveAttr("style", false);
    if Truthy(staticStyle) {
      el.staticStyle := Some(styleJson(staticStyle.value));
    }
    var styleBinding := el.GetBindingAttr("style", false);
    if Truthy(styleBinding) {
      el.styleBinding := styleBinding;
    }
  }

  /** One `style:value,` entry of the render data object. */
  function Fragment(value: string): (data: string)
    ensures StartsWith(data, "style:") && EndsWith(data, ",")
  {
    Affixes("style:", value, ",");
    "style:" + value + ","
  }

  /**
    The style value for an element with both a static style and a binding:
    an object-literal binding is merged with the static object into one
    literal, any other binding goes through `_rs` with the static style.
   */
  function Merged(staticStyle: string, binding: string): string
    requires binding != ""
  {
    if binding[0] == '{' then "({" + DropEnds(staticStyle) + "," + DropEnds(binding) + "})"
    else "_rs(" + binding + ", " + staticStyle + ")"
  }

  /**
    genData(el) as written: with a static style and no binding, evaluation
    reaches the undeclared identifier `e` and throws.
   */
  function GenData(el: Element): (r: Result<string, JsError>)
    reads el
    ensures r.Failure? <==> Truthy(el.staticStyle) && !Truthy(el.styleBinding)
    ensures r.Failure? ==> r.error.ReferenceError?
    ensures r == Success("") <==> !Truthy(el.staticStyle) && !Truthy(el.styleBinding)
    ensures Truthy(el.staticStyle) && Truthy(el.styleBinding)
      ==> r == Success(Fragment(Merged(el.staticStyle.value, el.styleBinding.value)))
    ensures !Truthy(el.staticStyle) && Truthy(el.styleBinding)
      ==> r == Success(Fragment("(_rs(" + el.styleBinding.value + "))"))
  {
    if Truthy(el.staticStyle) && Truthy(el.styleBinding) then
      Success(Fragment(Merged(el.staticStyle.value, el.styleBinding.value)))
    else if Truthy(el.styleBinding) || Truthy(el.staticStyle) then
      if Truthy(el.styleBinding) then Success(Fragment("(_rs(" + el.styleBinding.value + "))"))
      else Failure(ReferenceError("e is not defined"))
    else
      Success("")
  }

  /** The as-written genData throws on every element that has only a static style. */
  lemma StaticOnlyStyleThrows(el: Element)
    requires Truthy(el.staticStyle) && !Truthy(el.styleBinding)
    ensures GenData(el) == Failure(ReferenceError("e is not defined"))
  {
  }

  /** genData as evidently intended: the static style alone is emitted as `style:(static),`. */
  function GenDataIntended(el: Element): (data: string)
    reads el
    ensures data == "" <==> !Truthy(el.staticStyle) && !Truthy(el.styleBinding)
    ensures data != "" ==> StartsWith(data, "style:") && EndsWith(data, ",")
    ensures Truthy(el.staticStyle) && !Truthy(el.styleBinding) ==> data == Fragment("(" + el.staticStyle.value + ")")
  {
    if Truthy(el.staticStyle) && Truthy(el.styleBinding) then
      Fragment(Merged(el.staticStyle.value, el.styleBinding.value))
    else if Truthy(el.styleBinding) || Truthy(el.staticStyle) then
      Fragment("(" + (if Truthy(el.styleBinding) then "_rs(" + el.styleBinding.value + ")" else el.staticStyle.value) + ")")
    else
      ""
  }

  /** The corrected genData agrees with the written one wherever that one does not throw. */
  lemma IntendedAgreesWhereDefined(el: Element)
    ensures GenData(el).Success? ==> GenData(el).value == GenDataIntended(el)
  {
    if !Truthy(el.staticStyle) && Truthy(el.styleBinding) {
      var b := el.styleBinding.value;
      assert "(" + ("_rs(" + b + ")") + ")" == "(_rs(" + b + "))";
    }
  }

  /**
    transformNode then genData: an element contributes nothing exactly when
    it has neither a `style` nor a bound style; a static style alone makes
    the written genData throw and the corrected one emit the style object;
    with an object-literal binding the two objects' bodies are merged.
   */
  lemma TransformedStyleData(el: Element, m: map<string, string>, styleJson: string -> string)
    requires WritesObjectLiterals(styleJson)
    requires el.staticStyle == StaticStyle(m, styleJson) && el.styleBinding == StyleBinding(m)
    ensures GenData(el) == Success("") <==> !Truthy(Lookup(m, "style")) && !Truthy(DynamicBinding(m, "style"))
    ensures GenData(el).Failure? <==> Truthy(Lookup(m, "style")) && !Truthy(DynamicBinding(m, "style"))
    ensures Truthy(Lookup(m, "style")) && !Truthy(DynamicBinding(m, "style"))
      ==> GenDataIntended(el) == Fragment("(" + styleJson(m["style"]) + ")")
    ensures Truthy(Lookup(m, "style")) && Truthy(DynamicBinding(m, "style")) && DynamicBinding(m, "style").value[0] == '{'
      ==> var json := styleJson(m["style"]);
          var b := DynamicBinding(m, "style").value;
          GenData(el) == Success(Fragment("({" + json[1..|json| - 1] + "," + DropEnds(b) + "})"))
  {
  }

  /**
    An object-literal static style and an object-literal binding are merged
    into one object literal holding both bodies, the static one first.
   */
  lemma MergesObjectLiterals(el: Element, staticBody: string, bindingBody: string)
    requires el.staticStyle == Some("{" + staticBody + "}")
    requires el.styleBinding == Some("{" + bindingBody + "}")
    ensures GenData(el) == Success(Fragment("({" + staticBody + "," + bindingBody + "})"))
    ensures GenDataIntended(el) == Fragment("({" + staticBody + "," + bindingBody + "})")
  {
    var s := "{" + staticBody + "}";
    var b := "{" + bindingBody + "}";
    assert DropEnds(s) == staticBody by {
      assert s[1..|s| - 1] == staticBody;
    }
    assert DropEnds(b) == bindingBody by {
      assert b[1..|b| - 1] == bindingBody;
    }
    assert b[0] == '{';
  }
}
