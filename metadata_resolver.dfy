/**
  The metadata job: given the content address it was scheduled with and the
  parsed JSON document found there, load or create one Attribute per usable
  element of the `attributes` array and save the TokenMetadata under the
  content address.

  An element is usable when it has both a `trait_type` and a `value` entry;
  its Attribute id is `param-trait-value`. The ids of usable elements are
  collected in array order, repeats included. `image` and the id list are set
  on the TokenMetadata only when the document has both an `image` and an
  `attributes` entry; the TokenMetadata itself is saved in every case.
 */
module MetadataResolver {
  import opened JsonValues
  import opened Schema
  import opened EntityStore

  /** An array element with both trait entries (a present JSON null counts as present). */
  predicate HasTraits(e: Json) {
    e.JObject? && Has(e.entries, "trait_type") && Has(e.entries, "value")
  }

  /** An element the loop can read without aborting: an object whose trait entries, if both present, are strings. */
  predicate ElementReadable(e: Json) {
    e.JObject? &&
    (HasTraits(e) ==> Get(e.entries, "trait_type").value.JString? && Get(e.entries, "value").value.JString?)
  }

  predicate AllReadable(es: seq<Json>) {
    forall e :: e in es ==> ElementReadable(e)
  }

  /** The elements the loop walks: the `attributes` array, or nothing when it is absent or not an array. */
  function AttributeElements(doc: Json): seq<Json>
    requires doc.JObject?
  {
    var attrs := Get(doc.entries, "attributes");
    if attrs.Some? && attrs.value.JArray? then attrs.value.items else []
  }

  /**
    A document the handler processes without aborting: an object, whose
    array elements are readable, and whose `image` is a string whenever
    `image` and `attributes` are both present.
   */
  predicate DocumentReadable(doc: Json) {
    && doc.JObject?
    && AllReadable(AttributeElements(doc))
    && (Has(doc.entries, "image") && Has(doc.entries, "attributes") ==> Get(doc.entries, "image").value.JString?)
  }

  function TraitType(e: Json): string
    requires HasTraits(e) && ElementReadable(e)
  {
    Get(e.entries, "trait_type").value.str
  }

  function TraitValue(e: Json): string
    requires HasTraits(e) && ElementReadable(e)
  {
    Get(e.entries, "value").value.str
  }

  /** The Attribute id `${param}-${trait_type}-${value}`. */
  function AttributeId(param: string, traitType: string, value: string): (id: string)
    ensures |id| == |param| + |traitType| + |value| + 2 && id[..|param| + 1] == param + "-"
  {
    param + "-" + traitType + "-" + value
  }

  function ElementId(param: string, e: Json): string
    requires HasTraits(e) && ElementReadable(e)
  {
    AttributeId(param, TraitType(e), TraitValue(e))
  }

  /** The usable elements, in array order (reference definition, first element first). */
  function Kept(es: seq<Json>): (ks: seq<Json>)
    ensures forall x :: x in ks <==> x in es && HasTraits(x)
    ensures |ks| <= |es|
  {
    if es == [] then []
    else (if HasTraits(es[0]) then [es[0]] else []) + Kept(es[1..])
  }

  /** The ids the loop pushes onto `parsedAttributes`, after walking es. */
  function KeptIds(param: string, es: seq<Json>): (ids: seq<string>)
    requires AllReadable(es)
    ensures |ids| <= |es|
    decreases |es|
  {
    if es == [] then []
    else
      var prefix := es[..|es| - 1];
      var e := es[|es| - 1];
      var prev := KeptIds(param, prefix);
      if HasTraits(e) then prev + [ElementId(param, e)] else prev
  }

  /**
    The Attribute store after walking es from m: each usable element's id is
    loaded or created. Nothing stored before is overwritten, exactly the
    pushed ids are added, and a created Attribute's id is the join of param,
    its key and its value.
   */
  function AttributesAfter(m: map<string, Attribute>, param: string, es: seq<Json>): (r: map<string, Attribute>)
    requires AllReadable(es)
    ensures forall k :: k in m ==> k in r && r[k] == m[k]
    ensures forall k :: k in r <==> k in m || k in KeptIds(param, es)
    ensures forall k :: k in r && k !in m ==> k == AttributeId(param, r[k].key, r[k].value)
    decreases |es|
  {
    if es == [] then m
    else
      var prefix := es[..|es| - 1];
      var e := es[|es| - 1];
      var prev := AttributesAfter(m, param, prefix);
      if HasTraits(e) then LoadOrCreate(prev, ElementId(param, e), Attribute(TraitType(e), TraitValue(e))).0
      else prev
  }

  /** The TokenMetadata saved for doc, given the ids the loop collected. */
  function MetadataRecord(doc: Json, ids: seq<string>): (t: TokenMetadata)
    requires DocumentReadable(doc)
    ensures t.image.Some? <==> Has(doc.entries, "image") && Has(doc.entries, "attributes")
    ensures t.attributes.Some? <==> t.image.Some?
    ensures t.image.Some? ==> t.image.value == Get(doc.entries, "image").value.str && t.attributes.value == ids
  {
    var image := Get(doc.entries, "image");
    if image.Some? && Has(doc.entries, "attributes") then TokenMetadata(Some(image.value.str), Some(ids))
    else TokenMetadata(None, None)
  }

  /** `handleTokenMetadata` as a function of the store's contents. */
  function AfterMetadata(g: Graph, param: string, doc: Json): (r: Graph)
    requires DocumentReadable(doc)
    ensures param in r.tokenMetadata
    ensures forall k :: k in g.attributes ==> k in r.attributes && r.attributes[k] == g.attributes[k]
    ensures r.(attributes := g.attributes, tokenMetadata := g.tokenMetadata) == g
  {
    var es := AttributeElements(doc);
    g.(attributes := AttributesAfter(g.attributes, param, es),
       tokenMetadata := g.tokenMetadata[param := MetadataRecord(doc, KeptIds(param, es))])
  }

  /**
    The `for` loop over the `attributes` array: load or create each usable
    element's Attribute and push its id, in array order.
   */
  method CollectAttributes(st: Store, param: string, attributesArray: seq<Json>) returns (parsedAttributes: seq<string>)
    requires AllReadable(attributesArray)
    modifies st`attributes
    ensures parsedAttributes == KeptIds(param, attributesArray)
    ensures st.attributes == AttributesAfter(old(st.attributes), param, attributesArray)
  {
    parsedAttributes := [];
    for i := 0 to |attributesArray|
      invariant parsedAttributes == KeptIds(param, attributesArray[..i])
      invariant st.attributes == AttributesAfter(old(st.attributes), param, attributesArray[..i])
    {
      var a := attributesArray[i];
      assert ElementReadable(a);
      assert attributesArray[..i + 1][..i] == attributesArray[..i];
      var attributeValue := a.entries;
      var attributeTraitType := Get(attributeValue, "trait_type");
      var attributeTraitValue := Get(attributeValue, "value");

      if attributeTraitType.Some? && attributeTraitValue.Some? {
        var attributeId := AttributeId(param, attributeTraitType.value.str, attributeTraitValue.value.str);
        if attributeId !in st.attributes {
          var attribute := Attribute(key := attributeTraitType.value.str, value := attributeTraitValue.value.str);
          st.attributes := st.attributes[attributeId := attribute];
        }
        parsedAttributes := parsedAttributes + [attributeId];
      }
    }
    assert attributesArray[..|attributesArray|] == attributesArray;
  }

  method HandleTokenMetadata(st: Store, param: string, doc: Json)
    requires DocumentReadable(doc)
    modifies st`attributes, st`tokenMetadata
    ensures st.Contents() == AfterMetadata(old(st.Contents()), param, doc)
  {
    var tokenMetadata := TokenMetadata(image := None, attributes := None);
    var value := doc.entries;
    var image := Get(value, "image");
    var attributesValue := Get(value, "attributes");

    var parsedAttributes: seq<string> := [];
    if attributesValue.Some? && attributesValue.value.JArray? {
      parsedAttributes := CollectAttributes(st, param, attributesValue.value.items);
    }

    if image.Some? && attributesValue.Some? {
      tokenMetadata := tokenMetadata.(image := Some(image.value.str), attributes := Some(parsedAttributes));
    }

    st.tokenMetadata := st.tokenMetadata[param := tokenMetadata];
  }
}
