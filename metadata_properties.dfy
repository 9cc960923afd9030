/**
  What the metadata job guarantees, stated over `MetadataResolver`: the id
  list follows the usable elements in array order and repeats repeated
  traits; existing Attributes are never overwritten; the TokenMetadata is
  always saved, with `image` and the list only when both entries are present;
  running the same job twice gives the same store as running it once.
 */
module MetadataProperties {
  import opened JsonValues
  import opened Schema
  import opened MetadataResolver

  /** Filtering keeps order: the usable elements of a ++ b are those of a, then those of b. */
  lemma {:induction false} KeptConcat(a: seq<Json>, b: seq<Json>)
    ensures Kept(a + b) == Kept(a) + Kept(b)
    decreases |a|
  {
    if a == [] {
      assert a + b == b;
    } else {
      assert (a + b)[0] == a[0];
      assert (a + b)[1..] == a[1..] + b;
      KeptConcat(a[1..], b);
    }
  }

  /**
    The pushed id list has one entry per usable element, and its j-th entry
    is the id of the j-th usable element in array order.
   */
  lemma {:induction false} KeptIdsFollowKept(param: string, es: seq<Json>)
    requires AllReadable(es)
    ensures |KeptIds(param, es)| == |Kept(es)|
    ensures forall j :: 0 <= j < |Kept(es)| ==> KeptIds(param, es)[j] == ElementId(param, Kept(es)[j])
    decreases |es|
  {
    if es != [] {
      var prefix := es[..|es| - 1];
      var e := es[|es| - 1];
      assert es == prefix + [e];
      KeptConcat(prefix, [e]);
      assert Kept([e]) == (if HasTraits(e) then [e] else []) + Kept([]);
      KeptIdsFollowKept(param, prefix);
    }
  }

  /** Repeated identical traits give repeated ids: the list is not deduplicated. */
  lemma RepeatedTraitsRepeatIds(param: string, e: Json)
    requires HasTraits(e) && ElementReadable(e)
    ensures KeptIds(param, [e, e]) == [ElementId(param, e), ElementId(param, e)]
  {
    assert [e][..0] == [];
    assert KeptIds(param, [e]) == [ElementId(param, e)];
    assert [e, e][..1] == [e];
  }

  /** Elements without both trait entries contribute nothing. */
  lemma {:induction false} UnusableElementsIgnored(param: string, es: seq<Json>)
    requires AllReadable(es)
    requires forall e :: e in es ==> !HasTraits(e)
    ensures KeptIds(param, es) == []
    decreases |es|
  {
    if es != [] {
      assert es[|es| - 1] in es;
      UnusableElementsIgnored(param, es[..|es| - 1]);
    }
  }

  /** Every usable element's id is among the pushed ids. */
  lemma {:induction false} KeptIdsHas(param: string, es: seq<Json>, j: int)
    requires AllReadable(es)
    requires 0 <= j < |es| && HasTraits(es[j])
    ensures es[j] in es && ElementId(param, es[j]) in KeptIds(param, es)
    decreases |es|
  {
    var prefix := es[..|es| - 1];
    var e := es[|es| - 1];
    assert es[j] in es;
    var prev := KeptIds(param, prefix);
    assert KeptIds(param, es) == if HasTraits(e) then prev + [ElementId(param, e)] else prev;
    if j < |es| - 1 {
      assert es[j] == prefix[j];
      KeptIdsHas(param, prefix, j);
    }
  }

  /** es[i] is the first usable element of es whose id is k. */
  predicate FirstWithId(param: string, es: seq<Json>, i: int, k: string)
    requires AllReadable(es)
  {
    && 0 <= i < |es| && es[i] in es && HasTraits(es[i]) && ElementId(param, es[i]) == k
    && forall j :: 0 <= j < i && es[j] in es && HasTraits(es[j]) ==> ElementId(param, es[j]) != k
  }

  /**
    An Attribute the loop creates holds the `trait_type` and `value` of the
    first usable element whose id it is; later elements with the same id
    leave it as it is.
   */
  lemma {:induction false} CreatedAttributeOrigin(m: map<string, Attribute>, param: string, es: seq<Json>, k: string)
    requires AllReadable(es)
    requires k in AttributesAfter(m, param, es) && k !in m
    ensures exists i ::
              && FirstWithId(param, es, i, k)
              && AttributesAfter(m, param, es)[k] == Attribute(TraitType(es[i]), TraitValue(es[i]))
    decreases |es|
  {
    var prefix := es[..|es| - 1];
    var e := es[|es| - 1];
    assert e in es;
    var prev := AttributesAfter(m, param, prefix);
    var r := AttributesAfter(m, param, es);
    if k in prev {
      CreatedAttributeOrigin(m, param, prefix, k);
      var i :| FirstWithId(param, prefix, i, k) &&
        prev[k] == Attribute(TraitType(prefix[i]), TraitValue(prefix[i]));
      FirstWithIdExtends(param, es, i, k);
      assert r[k] == prev[k];
      assert FirstWithId(param, es, i, k) && r[k] == Attribute(TraitType(es[i]), TraitValue(es[i]));
    } else {
      var i := |es| - 1;
      IdsMissingFromStore(m, param, prefix, k);
      assert forall j :: 0 <= j < i ==> es[j] == prefix[j];
      assert FirstWithId(param, es, i, k) && r[k] == Attribute(TraitType(es[i]), TraitValue(es[i]));
    }
  }

  /** The first element with an id in a prefix is still the first one once more elements follow. */
  lemma FirstWithIdExtends(param: string, es: seq<Json>, i: int, k: string)
    requires AllReadable(es) && es != []
    requires AllReadable(es[..|es| - 1]) && FirstWithId(param, es[..|es| - 1], i, k)
    ensures FirstWithId(param, es, i, k) && es[i] == es[..|es| - 1][i]
  {
    var prefix := es[..|es| - 1];
    assert forall j :: 0 <= j < |prefix| ==> es[j] == prefix[j];
  }

  /** An id the walk did not store belongs to no usable element. */
  lemma IdsMissingFromStore(m: map<string, Attribute>, param: string, es: seq<Json>, k: string)
    requires AllReadable(es)
    requires k !in AttributesAfter(m, param, es)
    ensures forall j :: 0 <= j < |es| && es[j] in es && HasTraits(es[j]) ==> ElementId(param, es[j]) != k
  {
    forall j | 0 <= j < |es| && es[j] in es && HasTraits(es[j])
      ensures ElementId(param, es[j]) != k
    {
      KeptIdsHas(param, es, j);
    }
  }

  /** Walking the array over a store that already holds every id it pushes changes nothing. */
  lemma AttributesAfterStable(m: map<string, Attribute>, param: string, es: seq<Json>)
    requires AllReadable(es)
    requires forall k :: k in KeptIds(param, es) ==> k in m
    ensures AttributesAfter(m, param, es) == m
  {
    var r := AttributesAfter(m, param, es);
    assert r.Keys == m.Keys;
  }

  /**
    Redundant resolution is harmless: running the job twice with the same
    parameter and document leaves the store as one run does.
   */
  lemma ResolveTwice(g: Graph, param: string, doc: Json)
    requires DocumentReadable(doc)
    ensures AfterMetadata(AfterMetadata(g, param, doc), param, doc) == AfterMetadata(g, param, doc)
  {
    var once := AfterMetadata(g, param, doc);
    var es := AttributeElements(doc);
    AttributesAfterStable(once.attributes, param, es);
  }

  /**
    The TokenMetadata under the parameter is always saved, replacing any
    earlier one, and `image` and `attributes` are set exactly when the
    document has both entries.
   */
  lemma MetadataAlwaysSaved(g: Graph, param: string, doc: Json)
    requires DocumentReadable(doc)
    ensures param in AfterMetadata(g, param, doc).tokenMetadata
    ensures var m := AfterMetadata(g, param, doc).tokenMetadata[param];
      && (m.image.Some? <==> Has(doc.entries, "image") && Has(doc.entries, "attributes"))
      && (m.attributes.Some? <==> Has(doc.entries, "image") && Has(doc.entries, "attributes"))
  {
  }

  /**
    With both entries present, `image` is the document's image string and
    `attributes` the pushed id list, which is empty when `attributes` is not
    an array.
   */
  lemma MetadataFieldValues(g: Graph, param: string, doc: Json)
    requires DocumentReadable(doc)
    requires Has(doc.entries, "image") && Has(doc.entries, "attributes")
    ensures var m := AfterMetadata(g, param, doc).tokenMetadata[param]; var attrs := Get(doc.entries, "attributes").value;
      && m.image == Some(Get(doc.entries, "image").value.str)
      && (!attrs.JArray? ==> m.attributes == Some([]))
      && (attrs.JArray? ==> m.attributes == Some(KeptIds(param, attrs.items)))
  {
    var es := AttributeElements(doc);
    var attrs := Get(doc.entries, "attributes").value;
    assert AfterMetadata(g, param, doc).tokenMetadata[param] == MetadataRecord(doc, KeptIds(param, es));
    if attrs.JArray? {
      assert es == attrs.items;
    } else {
      assert es == [];
    }
  }

  /** The job touches only Attributes and the one TokenMetadata under its parameter. */
  lemma MetadataTouchesOnlyItsEntry(g: Graph, param: string, doc: Json)
    requires DocumentReadable(doc)
    ensures var r := AfterMetadata(g, param, doc);
      && (forall k :: k != param ==> (k in r.tokenMetadata <==> k in g.tokenMetadata))
      && (forall k :: k != param && k in g.tokenMetadata ==> r.tokenMetadata[k] == g.tokenMetadata[k])
      && (forall k :: k in g.attributes ==> k in r.attributes && r.attributes[k] == g.attributes[k])
      && r.tokens == g.tokens && r.accounts == g.accounts && r.metadataJobs == g.metadataJobs
  {
  }

  /**
    The Attribute loop runs whether or not `image` is present: every pushed
    id is stored even when the TokenMetadata is saved with no fields set.
   */
  lemma AttributesWithoutImage(g: Graph, param: string, doc: Json)
    requires DocumentReadable(doc)
    requires !Has(doc.entries, "image")
    ensures var r := AfterMetadata(g, param, doc);
      && r.tokenMetadata[param] == TokenMetadata(None, None)
      && (forall k :: k in KeptIds(param, AttributeElements(doc)) ==> k in r.attributes)
  {
  }

  /**
    `{"image":"ipfs://X","attributes":[{"trait_type":"Fur","value":"Brown"}]}`
    under parameter P gives TokenMetadata image "ipfs://X" with attributes
    ["P-Fur-Brown"], and the Attribute P-Fur-Brown with key Fur and value
    Brown when it did not exist yet.
   */
  lemma FurBrownExample(g: Graph, param: string)
    requires param + "-Fur-Brown" !in g.attributes
    ensures var fur := JObject([("trait_type", JString("Fur")), ("value", JString("Brown"))]);
      var doc := JObject([("image", JString("ipfs://X")), ("attributes", JArray([fur]))]);
      DocumentReadable(doc) &&
      var r := AfterMetadata(g, param, doc);
      && r.tokenMetadata[param] == TokenMetadata(Some("ipfs://X"), Some([param + "-Fur-Brown"]))
      && param + "-Fur-Brown" in r.attributes
      && r.attributes[param + "-Fur-Brown"] == Attribute("Fur", "Brown")
  {
    var fur := JObject([("trait_type", JString("Fur")), ("value", JString("Brown"))]);
    var doc := JObject([("image", JString("ipfs://X")), ("attributes", JArray([fur]))]);
    assert Get(fur.entries, "trait_type") == Some(JString("Fur"));
    assert Get(fur.entries, "value") == Some(JString("Brown"));
    assert Get(doc.entries, "image") == Some(JString("ipfs://X"));
    assert Get(doc.entries, "attributes") == Some(JArray([fur]));
    assert AttributeElements(doc) == [fur];
    assert ElementId(param, fur) == param + "-Fur-Brown";
    assert [fur][..0] == [];
    assert KeptIds(param, [fur]) == [param + "-Fur-Brown"];
  }
}
