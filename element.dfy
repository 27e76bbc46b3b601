/**
 * element.go: an argonaut element schema, a name and an ordered list of attribute
 * names. Unmarshal keeps, from a decoded JSON object, exactly the declared attributes
 * that are present; everything else is dropped.
 */
module Elements {
  import opened Json

  /** `AttributeStruct`: only its name is declared. */
  datatype Attribute = Attribute(name: string)

  /** `Attr(attrName)`: the attribute of that name. */
  function Attr(attrName: string): (a: Attribute)
    ensures a.name == attrName
  {
    Attribute(attrName)
  }

  /** The names declared by a list of attributes, in order. */
  function Names(attrs: seq<Attribute>): (r: seq<string>)
    ensures |r| == |attrs| && forall i :: 0 <= i < |attrs| ==> r[i] == attrs[i].name
  {
    if attrs == [] then [] else Names(attrs[..|attrs| - 1]) + [attrs[|attrs| - 1].name]
  }

  /**
   * The projection of a decoded object onto the declared attributes: a key is kept
   * exactly when it is declared and present, with the decoded value; a declared but
   * missing attribute gets no default.
   */
  function Projected(attrs: seq<Attribute>, dirty: Object): (r: Object)
    ensures forall k :: k in r <==> k in dirty && k in Names(attrs)
    ensures forall k :: k in r ==> r[k] == dirty[k]
  {
    if attrs == [] then map[]
    else
      var kept := Projected(attrs[..|attrs| - 1], dirty);
      var last := attrs[|attrs| - 1].name;
      assert Names(attrs) == Names(attrs[..|attrs| - 1]) + [last];
      if last in dirty then kept[last := dirty[last]] else kept
  }

  /** `ElementStruct`: built once by Elem and never changed afterwards. */
  class Element {
    const name: string
    const attrs: array<Attribute>

    constructor (name: string, attrs: array<Attribute>)
      ensures this.name == name && this.attrs == attrs
    {
      this.name := name;
      this.attrs := attrs;
    }

    /**
     * Unmarshal, after decoding: `dirty` is whatever the decoder produced (a decode
     * error is ignored, so a partial or empty object), projected attribute by attribute.
     */
    method Unmarshal(dirty: Object) returns (clean: Object)
      ensures clean == Projected(attrs[..], dirty)
    {
      clean := map[];
      var i := 0;
      while i < attrs.Length
        invariant 0 <= i <= attrs.Length
        invariant clean == Projected(attrs[..i], dirty)
      {
        var attr := attrs[i];
        if attr.name in dirty {
          clean := clean[attr.name := dirty[attr.name]];
        }
        assert attrs[..i + 1][..i] == attrs[..i];
        i := i + 1;
      }
      assert attrs[..i] == attrs[..];
    }
  }

  /** Elem: copies the attribute list, index by index, into a fresh array of the same length. */
  method Elem(name: string, attrStructs: seq<Attribute>) returns (e: Element)
    ensures e.name == name && fresh(e.attrs) && e.attrs[..] == attrStructs
  {
    var attrs := new Attribute[|attrStructs|](_ => Attribute(""));
    var index := 0;
    while index < |attrStructs|
      invariant 0 <= index <= |attrStructs|
      invariant forall j :: 0 <= j < index ==> attrs[j] == attrStructs[j]
    {
      attrs[index] := attrStructs[index];
      index := index + 1;
    }
    e := new Element(name, attrs);
  }

  /** Unmarshal's result, stated pointwise: declared-and-present keys only, values unchanged. */
  lemma ProjectedIsRestriction(attrs: seq<Attribute>, dirty: Object)
    ensures Projected(attrs, dirty) == map k | k in dirty && k in Names(attrs) :: dirty[k]
  {
  }

  /** Projecting again onto the same attributes changes nothing. */
  lemma ProjectedIdempotent(attrs: seq<Attribute>, dirty: Object)
    ensures Projected(attrs, Projected(attrs, dirty)) == Projected(attrs, dirty)
  {
  }
}
