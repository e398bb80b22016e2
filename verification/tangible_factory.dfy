/** The tangible factory's template table: lookup of a template by name and
    creation of tangible objects from a template or from storage. */
module TangibleFactory {
  import opened Wrappers
  import opened ByteBuffers

  /** A tangible object; only its object id is part of this model. */
  class Tangible {
    var objectId: uint64

    constructor ()
      ensures objectId == 0
    {
      objectId := 0;
    }
  }

  const TemplateNotFound: string := "Template Not Found: "

  class TangibleFactory {
    /** The loaded templates, keyed by template name. */
    var templates: map<string, Tangible>

    constructor (templates: map<string, Tangible>)
      ensures this.templates == templates
    {
      this.templates := templates;
    }

    /** Scans the table for an entry whose key is the name; None plays the
        part of the end iterator. */
    method GetTemplateIter(templateName: string) returns (found: Option<(string, Tangible)>)
      ensures found.Some? <==> templateName in templates
      ensures found.Some? ==> found.value == (templateName, templates[templateName])
    {
      var unvisited := templates.Keys;
      while unvisited != {}
        invariant unvisited <= templates.Keys
        invariant forall k :: k in templates && k !in unvisited ==> k != templateName
        decreases unvisited
      {
        var k :| k in unvisited;
        if k == templateName {
          return Some((k, templates[k]));
        }
        unvisited := unvisited - {k};
      }
      return None;
    }

    /** True exactly when some stored key equals the name. */
    method HasTemplate(templateName: string) returns (has: bool)
      ensures has <==> exists k :: k in templates && k == templateName
    {
      var found := GetTemplateIter(templateName);
      has := found.Some?;
    }

    /** The stored template object itself (the same instance, not a copy);
        a name with no template fails with "Template Not Found: " and the
        name. */
    method CreateObjectFromTemplate(templateName: string) returns (r: Result<Tangible, string>)
      ensures templateName in templates ==> r == Ok(templates[templateName])
      ensures templateName !in templates ==> r == Err(TemplateNotFound + templateName)
    {
      var found := GetTemplateIter(templateName);
      if found.Some? {
        return Ok(found.value.1);
      }
      return Err(TemplateNotFound + templateName);
    }

    /** A new tangible carrying the requested object id; the rest of its
        state comes from the database, which is not part of this model. The
        template table is not touched. */
    method CreateObjectFromStorage(objectId: uint64) returns (t: Tangible)
      ensures fresh(t) && t.objectId == objectId
      ensures t !in templates.Values
    {
      t := new Tangible();
      t.objectId := objectId;
    }
  }
}
