/**
 * The success-envelope part of `OpenApiConfiguration`: an operation customizer that documents every
 * handler carrying `@ApiOkResponse` with a fixed `{message, result, code, data}` envelope, the four
 * shapes of `data`, and the pass that hides `_links` from every component schema.
 */
module OpenApi {
  import opened Wrappers
  import opened LinkedMaps

  /**
   * A swagger `Schema`, reduced to the fields this configuration sets. `properties` is `None` while no
   * property was ever added, as in swagger, where `getProperties()` is then null.
   */
  datatype Schema = Schema(
    schemaType: Option<string>,
    format: Option<string>,
    ref: Option<string>,
    properties: Option<seq<Entry<Schema>>>,
    items: Option<Schema>,
    additionalProperties: Option<Schema>)
  {
    /** `.type(t)` */
    function Type(t: string): Schema {
      this.(schemaType := Some(t))
    }

    /** `.$ref(r)`, for references that already carry their component path. */
    function Ref(r: string): Schema {
      this.(ref := Some(r))
    }

    /** `.addProperty(k, s)`: creates the property map on first use, then `put`s. */
    function AddProperty(k: string, s: Schema): (r: Schema)
      ensures r.properties.Some?
      ensures Keys(r.properties.value) == PropertyNames() + if k in PropertyNames() then [] else [k]
      ensures k !in PropertyNames() ==>
                r.properties.value == (if properties.Some? then properties.value else []) + [Entry(k, s)]
    {
      var existing := if properties.Some? then properties.value else [];
      if k in Keys(existing) then this.(properties := Some(Put(existing, k, s)))
      else
        PutNew(existing, k, s);
        this.(properties := Some(Put(existing, k, s)))
    }

    /** `.items(s)` */
    function Items(s: Schema): Schema {
      this.(items := Some(s))
    }

    /** `.additionalProperties(s)` */
    function AdditionalProperties(s: Schema): Schema {
      this.(additionalProperties := Some(s))
    }

    /** The property names in insertion order; none when the map is null. */
    function PropertyNames(): seq<string> {
      if properties.Some? then Keys(properties.value) else []
    }

    /** `getProperties().get(k)`; `None` also when the map is null. */
    function Property(k: string): Option<Schema> {
      if properties.Some? then Get(properties.value, k) else None
    }
  }

  /** `new Schema<>()` */
  const EmptySchema: Schema := Schema(None, None, None, None, None, None)
  /** `new StringSchema()` */
  const StringSchema: Schema := EmptySchema.Type("string")
  /** `new BooleanSchema()` */
  const BooleanSchema: Schema := EmptySchema.Type("boolean")
  /** `new IntegerSchema()` */
  const IntegerSchema: Schema := EmptySchema.Type("integer").(format := Some("int32"))
  /** `new ArraySchema()` */
  const ArraySchema: Schema := EmptySchema.Type("array")

  const ComponentsSchemasRef: string := "#/components/schemas/"
  const LinkRef: string := "#/components/schemas/Link"
  const LinksProperty: string := "_links"
  const ApplicationJson: string := "application/json"

  /** The shape selector of `@ApiOkResponse`. */
  datatype ApiResponseType = OBJECT | LIST | PAGE | HATEOAS_PAGE

  /** An `@ApiOkResponse` annotation: its `value()` class, named by its simple name, and `type()` if written. */
  datatype ApiOkResponse = ApiOkResponse(dtoSimpleName: string, declaredType: Option<ApiResponseType>) {
    /** `type()`: LIST when the annotation omits it. */
    function Shape(): ApiResponseType {
      if declaredType.Some? then declaredType.value else LIST
    }
  }

  /** A chain of `.addProperty(k, s)` calls, in order. */
  function AddProperties(s: Schema, es: seq<Entry<Schema>>): (r: Schema)
    ensures r == s.(properties := r.properties)
    decreases |es|
  {
    if es == [] then s else AddProperties(s.AddProperty(es[0].key, es[0].value), es[1..])
  }

  /** Adding properties under distinct names to a schema without properties yields exactly those, in order. */
  lemma {:induction false} AddPropertiesFresh(s: Schema, es: seq<Entry<Schema>>)
    requires es != [] && s.properties.None?
    requires forall i, j :: 0 <= i < j < |es| ==> es[i].key != es[j].key
    ensures AddProperties(s, es).properties == Some(es)
  {
    AddPropertiesPutAll(s, es);
    PutAllNew([], es);
    assert [] + es == es;
  }

  /** A chain of `addProperty` is a chain of `put`s on the property map. */
  lemma {:induction false} AddPropertiesPutAll(s: Schema, es: seq<Entry<Schema>>)
    requires es != []
    ensures AddProperties(s, es).properties == Some(PutAll(if s.properties.Some? then s.properties.value else [], es))
    decreases |es|
  {
    var existing := if s.properties.Some? then s.properties.value else [];
    var s1 := s.AddProperty(es[0].key, es[0].value);
    assert s1.properties == Some(Put(existing, es[0].key, es[0].value));
    if |es| > 1 {
      AddPropertiesPutAll(s1, es[1..]);
    }
  }

  /** `objectSchema(dto)`: a reference to the DTO's component schema. */
  function ObjectSchema(dto: string): (r: Schema)
    ensures r.ref == Some(ComponentsSchemasRef + dto)
    ensures r.schemaType.None? && r.properties.None? && r.items.None?
  {
    EmptySchema.Ref(ComponentsSchemasRef + dto)
  }

  /** `listSchema(dto)`: an array whose items are that reference. */
  function ListSchema(dto: string): (r: Schema)
    ensures r.schemaType == Some("array") && r.items == Some(ObjectSchema(dto))
    ensures r.ref.None? && r.properties.None?
  {
    ArraySchema.Items(EmptySchema.Ref(ComponentsSchemasRef + dto))
  }

  /** `pageSchema(dto)`: an object with the list and four integer counters. */
  function PageSchema(dto: string): (r: Schema)
    ensures r.schemaType == Some("object") && r.ref.None? && r.items.None?
    ensures r.properties == Some([Entry("content", ListSchema(dto)), Entry("totalElements", IntegerSchema),
      Entry("totalPages", IntegerSchema), Entry("size", IntegerSchema), Entry("number", IntegerSchema)])
  {
    var properties := [Entry("content", ListSchema(dto)), Entry("totalElements", IntegerSchema),
      Entry("totalPages", IntegerSchema), Entry("size", IntegerSchema), Entry("number", IntegerSchema)];
    AddPropertiesFresh(EmptySchema.Type("object"), properties);
    AddProperties(EmptySchema.Type("object"), properties)
  }

  /** The `page` sub-object of the HATEOAS page: four integers and, unlike the others, no type. */
  function PageMetadataSchema(): (r: Schema)
    ensures r.schemaType.None? && r.ref.None? && r.items.None?
    ensures r.properties == Some([Entry("size", IntegerSchema), Entry("totalElements", IntegerSchema),
      Entry("totalPages", IntegerSchema), Entry("number", IntegerSchema)])
  {
    var properties := [Entry("size", IntegerSchema), Entry("totalElements", IntegerSchema),
      Entry("totalPages", IntegerSchema), Entry("number", IntegerSchema)];
    AddPropertiesFresh(EmptySchema, properties);
    AddProperties(EmptySchema, properties)
  }

  /** The `_links` sub-object: a map whose values are references to `Link`. */
  function LinksSchema(): (r: Schema)
    ensures r.additionalProperties == Some(ObjectSchema("Link"))
    ensures r.properties.None? && r.schemaType.None?
  {
    assert ComponentsSchemasRef + "Link" == LinkRef;
    EmptySchema.AdditionalProperties(EmptySchema.Ref(LinkRef))
  }

  /** `hateoasPageSchema(dto)`: the list, the `page` object and the `_links` map. */
  function HateoasPageSchema(dto: string): (r: Schema)
    ensures r.schemaType == Some("object") && r.ref.None? && r.items.None?
    ensures r.properties == Some([Entry("content", ListSchema(dto)), Entry("page", PageMetadataSchema()),
      Entry(LinksProperty, LinksSchema())])
  {
    var properties := [Entry("content", ListSchema(dto)), Entry("page", PageMetadataSchema()),
      Entry(LinksProperty, LinksSchema())];
    AddPropertiesFresh(EmptySchema.Type("object"), properties);
    AddProperties(EmptySchema.Type("object"), properties)
  }

  /** The `switch (apiOk.type())` that picks the shape of `data`. */
  function DataSchema(annotation: ApiOkResponse): Schema {
    match annotation.Shape()
    case OBJECT => ObjectSchema(annotation.dtoSimpleName)
    case LIST => ListSchema(annotation.dtoSimpleName)
    case PAGE => PageSchema(annotation.dtoSimpleName)
    case HATEOAS_PAGE => HateoasPageSchema(annotation.dtoSimpleName)
  }

  /** `baseEnvelopeSchema(data)`: an object with exactly message, result, code and data, in that order. */
  function BaseEnvelopeSchema(data: Schema): (r: Schema)
    ensures r.schemaType == Some("object") && r.ref.None? && r.items.None?
    ensures r.properties == Some([Entry("message", StringSchema), Entry("result", BooleanSchema),
      Entry("code", IntegerSchema), Entry("data", data)])
  {
    var properties := [Entry("message", StringSchema), Entry("result", BooleanSchema),
      Entry("code", IntegerSchema), Entry("data", data)];
    AddPropertiesFresh(EmptySchema.Type("object"), properties);
    AddProperties(EmptySchema.Type("object"), properties)
  }

  /** A swagger `MediaType`: only its schema is set here. */
  datatype MediaType = MediaType(schema: Option<Schema>)

  /** A swagger `ApiResponse`: its description and its content map from media type name to `MediaType`. */
  datatype ApiResponse = ApiResponse(description: Option<string>, content: Option<seq<Entry<MediaType>>>)

  /** The response the customizer registers under "200". */
  function SuccessResponse(annotation: ApiOkResponse): (r: ApiResponse)
    ensures r.description == Some("Success")
    ensures r.content.Some? && Keys(r.content.value) == [ApplicationJson]
    ensures Get(r.content.value, ApplicationJson) == Some(MediaType(Some(BaseEnvelopeSchema(DataSchema(annotation)))))
  {
    ApiResponse(Some("Success"), Some(Put([], ApplicationJson, MediaType(Some(BaseEnvelopeSchema(DataSchema(annotation)))))))
  }

  /** A swagger `Operation`; `responses` is its `ApiResponses`, a map from status code to response. */
  class Operation {
    var responses: seq<Entry<ApiResponse>>

    constructor (responses: seq<Entry<ApiResponse>>)
      ensures this.responses == responses
    {
      this.responses := responses;
    }
  }

  /**
   * The `OperationCustomizer` of `apiOkResponseCustomizer`, applied to one operation whose handler
   * carries `annotation` (`None` when it has no `@ApiOkResponse`). Returns the same operation.
   */
  method CustomizeOperation(operation: Operation, annotation: Option<ApiOkResponse>) returns (r: Operation)
    modifies operation
    ensures r == operation
    ensures annotation.None? ==> operation.responses == old(operation.responses)
    ensures annotation.Some? ==> operation.responses == Put(old(operation.responses), "200", SuccessResponse(annotation.value))
  {
    if annotation.None? {
      return operation;
    }
    var dataSchema := DataSchema(annotation.value);
    var responseSchema := BaseEnvelopeSchema(dataSchema);
    operation.responses := Put(operation.responses, "200",
      ApiResponse(Some("Success"), Some(Put([], ApplicationJson, MediaType(Some(responseSchema))))));
    return operation;
  }

  /** After customizing, "200" holds the success envelope and every other status code reads as before. */
  lemma CustomizedResponses(responses: seq<Entry<ApiResponse>>, annotation: ApiOkResponse, code: string)
    ensures Get(Put(responses, "200", SuccessResponse(annotation)), code) ==
            if code == "200" then Some(SuccessResponse(annotation)) else Get(responses, code)
  {
    GetPut(responses, "200", SuccessResponse(annotation), code);
  }

  /** The shape an annotation without `type()` selects is LIST: an array of references to the DTO. */
  lemma DefaultShapeIsList(dto: string)
    ensures DataSchema(ApiOkResponse(dto, None)) == ListSchema(dto)
    ensures DataSchema(ApiOkResponse(dto, None)).items == Some(ObjectSchema(dto))
  {
  }

  /** `schema.getProperties().remove("_links")` on one schema whose property map is present. */
  function WithoutLinks(s: Schema): (r: Schema)
    requires s.properties.Some?
    ensures r.properties.Some? && r.Property(LinksProperty).None?
    ensures forall k :: k != LinksProperty ==> r.Property(k) == s.Property(k)
    ensures r.(properties := s.properties) == s
  {
    var r := s.(properties := Some(Remove(s.properties.value, LinksProperty)));
    forall k ensures r.Property(k) == if k == LinksProperty then None else s.Property(k) {
      GetRemove(s.properties.value, LinksProperty, k);
    }
    r
  }

  predicate AllHaveProperties(schemas: map<string, Schema>) {
    forall k :: k in schemas ==> schemas[k].properties.Some?
  }

  /** The component map after `hideHateoasLinks`, when every schema has a property map. */
  function StripLinks(schemas: map<string, Schema>): (r: map<string, Schema>)
    requires AllHaveProperties(schemas)
    ensures r.Keys == schemas.Keys
    ensures forall k :: k in r ==> r[k] == WithoutLinks(schemas[k])
  {
    map k | k in schemas :: WithoutLinks(schemas[k])
  }

  /** Hiding the links twice is the same as hiding them once. */
  lemma StripLinksIdempotent(schemas: map<string, Schema>)
    requires AllHaveProperties(schemas)
    ensures AllHaveProperties(StripLinks(schemas))
    ensures StripLinks(StripLinks(schemas)) == StripLinks(schemas)
  {
    var once := StripLinks(schemas);
    forall k | k in once ensures WithoutLinks(once[k]) == once[k] {
      RemoveIdempotent(schemas[k].properties.value, LinksProperty);
    }
  }

  /**
   * The `Components` object of the generated document, reduced to its schema map; `None` is a
   * `getSchemas()` that returns null.
   */
  class Components {
    var schemas: Option<map<string, Schema>>

    constructor (schemas: Option<map<string, Schema>>)
      ensures this.schemas == schemas
    {
      this.schemas := schemas;
    }
  }

  /** Every schema of `after` is the same-named schema of `before`, either unchanged or without its links. */
  predicate PartlyStripped(before: map<string, Schema>, after: map<string, Schema>) {
    && after.Keys == before.Keys
    && forall k :: k in after ==>
         after[k] == before[k] || (before[k].properties.Some? && after[k] == WithoutLinks(before[k]))
  }

  /** `hideHateoasLinks` runs through: components and schema map are present and every schema has properties. */
  predicate HidesAll(schemas: Option<map<string, Schema>>) {
    schemas.Some? && AllHaveProperties(schemas.value)
  }

  /**
   * The `OpenApiCustomizer` of `hideHateoasLinks`: remove `_links` from the properties of every
   * component schema. Null components (`components` is `null`) or a null schema map make the chain
   * throw a NullPointerException before any schema is visited: `ok` is then false and nothing changes.
   * A schema without a property map fails the call part-way, as described at `HideLinksInSchemas`.
   */
  method HideHateoasLinks(components: Components?) returns (ok: bool)
    modifies components
    ensures components == null ==> !ok
    ensures components != null ==> (ok <==> HidesAll(old(components.schemas)))
    ensures components != null && ok ==> components.schemas == Some(StripLinks(old(components.schemas).value))
    ensures components != null && old(components.schemas).None? ==> components.schemas.None?
    ensures components != null && old(components.schemas).Some? ==>
              components.schemas.Some? && PartlyStripped(old(components.schemas).value, components.schemas.value)
  {
    if components == null || components.schemas.None? {
      return false;
    }
    ok := HideLinksInSchemas(components);
  }

  /**
   * The `forEach` of `hideHateoasLinks` over a present schema map, in the map's (unspecified) order. A
   * schema with a null property map makes `remove` throw a NullPointerException: `ok` is then false,
   * and the schemas visited before it have already lost their `_links`.
   */
  method HideLinksInSchemas(components: Components) returns (ok: bool)
    requires components.schemas.Some?
    modifies components
    ensures components.schemas.Some?
    ensures PartlyStripped(old(components.schemas.value), components.schemas.value)
    ensures ok <==> AllHaveProperties(old(components.schemas.value))
    ensures ok ==> components.schemas.value == StripLinks(old(components.schemas.value))
  {
    ghost var original := components.schemas.value;
    var schemas := components.schemas.value;
    var pending := schemas.Keys;
    while pending != {}
      invariant components.schemas == Some(schemas)
      invariant StrippedExcept(original, schemas, pending)
      decreases pending
    {
      var k :| k in pending;
      var schema := schemas[k];
      if schema.properties.None? {
        StrippedExceptPartly(original, schemas, pending);
        return false;
      }
      schemas := schemas[k := WithoutLinks(schema)];
      components.schemas := Some(schemas);
      pending := pending - {k};
    }
    StrippedExceptPartly(original, schemas, {});
    StrippedExceptAll(original, schemas);
    return true;
  }

  /** The loop state of `hideHateoasLinks`: the schemas not in `pending` have lost their links, the others are untouched. */
  predicate StrippedExcept(before: map<string, Schema>, after: map<string, Schema>, pending: set<string>) {
    && pending <= before.Keys
    && after.Keys == before.Keys
    && (forall k :: k in pending ==> after[k] == before[k])
    && (forall k :: k in before && k !in pending ==>
          before[k].properties.Some? && after[k] == WithoutLinks(before[k]))
  }

  lemma StrippedExceptPartly(before: map<string, Schema>, after: map<string, Schema>, pending: set<string>)
    requires StrippedExcept(before, after, pending)
    ensures PartlyStripped(before, after)
    ensures (exists k :: k in pending && before[k].properties.None?) ==> !AllHaveProperties(before)
  {
  }

  lemma StrippedExceptAll(before: map<string, Schema>, after: map<string, Schema>)
    requires StrippedExcept(before, after, {})
    ensures AllHaveProperties(before) && after == StripLinks(before)
  {
  }

}
