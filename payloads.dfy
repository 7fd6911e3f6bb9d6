/**
 * The JSON documents the create flow writes to the helpers' tmp files: the
 * Zotero report template with its title set, the Zenodo deposit template
 * with its back-reference, title and description set, and the Zotero
 * update that stores the DOI in the item's `extra` field.
 */
module Payloads {
  import opened Wrappers
  import opened JsonValues

  const TITLE_PATH: seq<Step> := [Member("title")]
  const DESCRIPTION_PATH: seq<Step> := [Member("description")]
  const IDENTIFIER_PATH: seq<Step> := [Member("related_identifiers"), Index(0), Member("identifier")]
  /** Where `related_identifiers[0].identifier` leads when `related_identifiers` is an object. */
  const KEYED_IDENTIFIER_PATH: seq<Step> := [Member("related_identifiers"), Member("0"), Member("identifier")]
  /** The same path, from inside `related_identifiers`. */
  const KEYED_IDENTIFIER_TAIL: seq<Step> := [Member("0"), Member("identifier")]

  // ------------------------------------------------------- Zotero template

  /**
   * `templateJson.title = title` on the parsed `create-item --template report`
   * output. None: the template is null, and the write throws.
   */
  function FillItemTemplate(template: Json, title: Json): (r: Option<Json>)
    ensures r.None? <==> template.JNull?
    ensures r.Some? && !template.JObj? ==> r.value == template
  {
    SetMember(Some(template), "title", Some(title))
  }

  /**
   * On an object template the title is the given one, and every value not
   * reached through `title` is the template's.
   */
  lemma ItemTemplateChangesOnlyTitle(template: Json, title: Json)
    requires template.JObj?
    ensures FillItemTemplate(template, title).Some?
    ensures Lookup(FillItemTemplate(template, title).value, TITLE_PATH) == Some(title)
    ensures forall p :: Apart(p, TITLE_PATH) ==>
              Lookup(FillItemTemplate(template, title).value, p) == Lookup(template, p)
  {
    var r := FillItemTemplate(template, title).value;
    forall p | Apart(p, TITLE_PATH)
      ensures Lookup(r, p) == Lookup(template, p)
    {
      assert p != [] by { assert IsPrefix([], TITLE_PATH); }
      assert p[0] != Member("title") by {
        assert p[0] == Member("title") ==> IsPrefix(TITLE_PATH, p);
      }
    }
  }

  // ------------------------------------------------------ Zenodo template

  /**
   * The template's `related_identifiers[0]` can take a member: reading it does
   * not throw and gives neither undefined nor null.
   */
  predicate IdentifierWritable(template: Json) {
    && template.JObj?
    && "related_identifiers" in template.fields
    && !template.fields["related_identifiers"].JNull?
    && ElementZero(template.fields["related_identifiers"]).Some?
    && !ElementZero(template.fields["related_identifiers"]).value.JNull?
  }

  /** The template as zenodo-cli ships it: an object whose `related_identifiers` is an array starting with an object. */
  predicate UsualDepositTemplate(template: Json) {
    && template.JObj?
    && "related_identifiers" in template.fields
    && template.fields["related_identifiers"].JArr?
    && |template.fields["related_identifiers"].items| > 0
    && template.fields["related_identifiers"].items[0].JObj?
  }

  /**
   * The three writes of zenodoCreate on the parsed deposit template:
   * `related_identifiers[0].identifier = selectLink`, then `title = title` and
   * `description = title`. None: one of them throws.
   */
  function FillDepositTemplate(template: Json, selectLink: string, title: Option<Json>): (r: Option<Json>)
    ensures r.Some? <==> IdentifierWritable(template)
    ensures r.Some? ==> r.value.JObj?
  {
    if !template.JObj? || "related_identifiers" !in template.fields then None
    else
      var ids := template.fields["related_identifiers"];
      if ids.JNull? then None
      else
        match SetMember(ElementZero(ids), "identifier", Some(JStr(selectLink)))
        case None => None
        case Some(first) =>
          var linked := JObj(template.fields["related_identifiers" := WithElementZero(ids, first)]);
          var titled := SetMember(Some(linked), "title", title);
          SetMember(titled, "description", title)
  }

  /**
   * On the usual template the deposit payload carries the select link as its
   * first related identifier and the title as both title and description;
   * every value not reached through one of those three paths is the
   * template's.
   */
  lemma DepositTemplateChangesOnlyThreeFields(template: Json, selectLink: string, title: Option<Json>)
    requires UsualDepositTemplate(template)
    ensures FillDepositTemplate(template, selectLink, title).Some?
    ensures var r := FillDepositTemplate(template, selectLink, title).value;
            && Lookup(r, IDENTIFIER_PATH) == Some(JStr(selectLink))
            && Lookup(r, TITLE_PATH) == title
            && Lookup(r, DESCRIPTION_PATH) == title
    ensures forall p :: Apart(p, IDENTIFIER_PATH) && Apart(p, TITLE_PATH) && Apart(p, DESCRIPTION_PATH) ==>
              Lookup(FillDepositTemplate(template, selectLink, title).value, p) == Lookup(template, p)
  {
    var m := template.fields;
    var items := m["related_identifiers"].items;
    var first := JObj(Assign(items[0].fields, "identifier", Some(JStr(selectLink))));
    var ids' := JArr(items[0 := first]);
    var fields := Assign(Assign(m["related_identifiers" := ids'], "title", title), "description", title);
    var r := FillDepositTemplate(template, selectLink, title).value;
    assert r == JObj(fields);
    assert Lookup(r, IDENTIFIER_PATH) == Lookup(first, IDENTIFIER_PATH[2..]);
    forall p | Apart(p, IDENTIFIER_PATH) && Apart(p, TITLE_PATH) && Apart(p, DESCRIPTION_PATH)
      ensures Lookup(r, p) == Lookup(template, p)
    {
      UntouchedPath(template, selectLink, title, p);
    }
  }

  /** One path of DepositTemplateChangesOnlyThreeFields, followed step by step. */
  lemma UntouchedPath(template: Json, selectLink: string, title: Option<Json>, p: seq<Step>)
    requires UsualDepositTemplate(template)
    requires Apart(p, IDENTIFIER_PATH) && Apart(p, TITLE_PATH) && Apart(p, DESCRIPTION_PATH)
    ensures FillDepositTemplate(template, selectLink, title).Some?
    ensures Lookup(FillDepositTemplate(template, selectLink, title).value, p) == Lookup(template, p)
  {
    var m := template.fields;
    var ids := m["related_identifiers"];
    var items := ids.items;
    var first := JObj(Assign(items[0].fields, "identifier", Some(JStr(selectLink))));
    var ids' := JArr(items[0 := first]);
    var fields := Assign(Assign(m["related_identifiers" := ids'], "title", title), "description", title);
    var r := FillDepositTemplate(template, selectLink, title).value;
    assert r == JObj(fields);
    assert p != [] by { assert IsPrefix([], IDENTIFIER_PATH); }
    assert p[0] != Member("title") by {
      assert p[0] == Member("title") ==> IsPrefix(TITLE_PATH, p);
    }
    assert p[0] != Member("description") by {
      assert p[0] == Member("description") ==> IsPrefix(DESCRIPTION_PATH, p);
    }
    match p[0]
    case Index(_) =>
    case Member(name) =>
      if name == "related_identifiers" {
        assert |p| >= 2 by { assert IsPrefix(p, IDENTIFIER_PATH) || |p| >= 2; }
        var q := p[1..];
        assert Lookup(r, p) == Lookup(ids', q);
        assert Lookup(template, p) == Lookup(ids, q);
        match q[0]
        case Member(_) =>
        case Index(i) =>
          if i == 0 {
            assert |p| >= 3 by { assert IsPrefix(p, IDENTIFIER_PATH) || |p| >= 3; }
            assert p[2] != Member("identifier") by {
              assert p[2] == Member("identifier") ==> IsPrefix(IDENTIFIER_PATH, p);
            }
            assert Lookup(ids', q) == Lookup(first, q[1..]);
            assert Lookup(ids, q) == Lookup(items[0], q[1..]);
          } else {
            assert Lookup(ids', q) == Lookup(ids, q);
          }
      } else {
        assert name in fields <==> name in m;
      }
  }

  /** A template whose `related_identifiers` is an object with an object as member "0". */
  predicate KeyedDepositTemplate(template: Json) {
    && template.JObj?
    && "related_identifiers" in template.fields
    && template.fields["related_identifiers"].JObj?
    && "0" in template.fields["related_identifiers"].fields
    && template.fields["related_identifiers"].fields["0"].JObj?
  }

  /**
   * When `related_identifiers` is an object, `[0]` reads its member "0": an
   * object there takes the select link as its `identifier`, title and
   * description take the title, and every value not reached through one of
   * those three paths is the template's.
   */
  lemma KeyedTemplateChangesOnlyThreeFields(template: Json, selectLink: string, title: Option<Json>)
    requires KeyedDepositTemplate(template)
    ensures FillDepositTemplate(template, selectLink, title).Some?
    ensures var r := FillDepositTemplate(template, selectLink, title).value;
            && Lookup(r, KEYED_IDENTIFIER_PATH) == Some(JStr(selectLink))
            && Lookup(r, TITLE_PATH) == title
            && Lookup(r, DESCRIPTION_PATH) == title
    ensures forall p :: Apart(p, KEYED_IDENTIFIER_PATH) && Apart(p, TITLE_PATH) && Apart(p, DESCRIPTION_PATH) ==>
              Lookup(FillDepositTemplate(template, selectLink, title).value, p) == Lookup(template, p)
  {
    var m := template.fields;
    var ids := m["related_identifiers"].fields;
    var first := JObj(Assign(ids["0"].fields, "identifier", Some(JStr(selectLink))));
    var ids' := JObj(ids["0" := first]);
    var fields := Assign(Assign(m["related_identifiers" := ids'], "title", title), "description", title);
    var r := FillDepositTemplate(template, selectLink, title).value;
    assert r == JObj(fields);
    assert Lookup(r, KEYED_IDENTIFIER_PATH) == Lookup(first, KEYED_IDENTIFIER_PATH[2..]);
    forall p | Apart(p, KEYED_IDENTIFIER_PATH) && Apart(p, TITLE_PATH) && Apart(p, DESCRIPTION_PATH)
      ensures Lookup(r, p) == Lookup(template, p)
    {
      KeyedUntouchedPath(template, selectLink, title, p);
    }
  }

  /** One path of KeyedTemplateChangesOnlyThreeFields, followed step by step. */
  lemma KeyedUntouchedPath(template: Json, selectLink: string, title: Option<Json>, p: seq<Step>)
    requires KeyedDepositTemplate(template)
    requires Apart(p, KEYED_IDENTIFIER_PATH) && Apart(p, TITLE_PATH) && Apart(p, DESCRIPTION_PATH)
    ensures FillDepositTemplate(template, selectLink, title).Some?
    ensures Lookup(FillDepositTemplate(template, selectLink, title).value, p) == Lookup(template, p)
  {
    var m := template.fields;
    var ids := m["related_identifiers"];
    var first := JObj(Assign(ids.fields["0"].fields, "identifier", Some(JStr(selectLink))));
    var ids' := JObj(ids.fields["0" := first]);
    var fields := Assign(Assign(m["related_identifiers" := ids'], "title", title), "description", title);
    var r := FillDepositTemplate(template, selectLink, title).value;
    assert r == JObj(fields);
    assert p != [] by { assert IsPrefix([], KEYED_IDENTIFIER_PATH); }
    assert p[0] != Member("title") by {
      assert p[0] == Member("title") ==> IsPrefix(TITLE_PATH, p);
    }
    assert p[0] != Member("description") by {
      assert p[0] == Member("description") ==> IsPrefix(DESCRIPTION_PATH, p);
    }
    match p[0]
    case Index(_) =>
    case Member(name) =>
      if name == "related_identifiers" {
        var q := p[1..];
        assert Lookup(r, p) == Lookup(ids', q);
        assert Lookup(template, p) == Lookup(ids, q);
        assert p == [p[0]] + q;
        assert KEYED_IDENTIFIER_PATH == [p[0]] + KEYED_IDENTIFIER_TAIL;
        assert IsPrefix(q, KEYED_IDENTIFIER_TAIL) ==> IsPrefix(p, KEYED_IDENTIFIER_PATH);
        assert IsPrefix(KEYED_IDENTIFIER_TAIL, q) ==> IsPrefix(KEYED_IDENTIFIER_PATH, p);
        KeyedIdentifiersUntouched(ids.fields, selectLink, q);
      } else {
        assert name in fields <==> name in m;
      }
  }

  /** Inside `related_identifiers`: a path apart from `0.identifier` reads the same after the write. */
  lemma KeyedIdentifiersUntouched(ids: map<string, Json>, selectLink: string, q: seq<Step>)
    requires "0" in ids && ids["0"].JObj?
    requires Apart(q, KEYED_IDENTIFIER_TAIL)
    ensures var first := JObj(Assign(ids["0"].fields, "identifier", Some(JStr(selectLink))));
            Lookup(JObj(ids["0" := first]), q) == Lookup(JObj(ids), q)
  {
    var first := JObj(Assign(ids["0"].fields, "identifier", Some(JStr(selectLink))));
    var ids' := ids["0" := first];
    assert q != [] by { assert IsPrefix([], KEYED_IDENTIFIER_TAIL); }
    match q[0]
    case Index(_) =>
    case Member(k) =>
      if k == "0" {
        assert |q| >= 2 by { assert IsPrefix(q, KEYED_IDENTIFIER_TAIL) || |q| >= 2; }
        assert q[1] != Member("identifier") by {
          assert q[1] == Member("identifier") ==> IsPrefix(KEYED_IDENTIFIER_TAIL, q);
        }
        assert Lookup(JObj(ids'), q) == Lookup(first, q[1..]);
        assert Lookup(JObj(ids), q) == Lookup(ids["0"], q[1..]);
      } else {
        assert k in ids' <==> k in ids;
      }
  }

  /**
   * A first related identifier that is not an object (a string, number,
   * boolean or array) silently ignores the write: the payload differs from
   * the template in title and description only.
   */
  lemma PrimitiveIdentifierIgnoresLink(template: Json, selectLink: string, title: Option<Json>)
    requires IdentifierWritable(template)
    requires !ElementZero(template.fields["related_identifiers"]).value.JObj?
    ensures FillDepositTemplate(template, selectLink, title)
         == Some(JObj(Assign(Assign(template.fields, "title", title), "description", title)))
  {
    var ids := template.fields["related_identifiers"];
    var e := ElementZero(ids).value;
    assert WithElementZero(ids, e) == ids;
    assert template.fields["related_identifiers" := ids] == template.fields;
  }

  // ----------------------------------------------------------- the update

  /** `{ extra: doi }`: the whole update written for the created item. */
  function UpdatePayload(doi: string): (r: Json)
    ensures r.JObj? && r.fields.Keys == {"extra"}
    ensures Lookup(r, [Member("extra")]) == Some(JStr(doi))
  {
    JObj(map["extra" := JStr(doi)])
  }
}
