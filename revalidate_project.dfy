/**
 * The `afterChange` and `afterDelete` hooks of the Projects collection. The
 * framework calls they make (`payload.logger.info`, `revalidatePath`,
 * `revalidateTag`) are returned as a list of actions in call order.
 */
module RevalidateProject {
  import opened Optional
  import opened Js

  /** The fields of a project document the hooks read. */
  datatype ProjectDoc = ProjectDoc(slug: NullableString, status: Value)

  datatype Action = LogInfo(message: string) | RevalidatePath(path: string) | RevalidateTag(tag: string)

  /** What a hook returns to the framework, and the calls it made on the way. */
  datatype HookResult<D> = HookResult(doc: D, actions: seq<Action>)

  const CollectionTag := "projects-collection"

  predicate Published(doc: ProjectDoc) {
    doc.status == Str("published")
  }

  /** `context.disableRevalidate` is set. */
  predicate Disabled(context: Record) {
    Truthy(Get(context, "disableRevalidate"))
  }

  function ProjectPath(slug: NullableString): string {
    "/projects/" + Interpolate(slug)
  }

  /** One revalidation: log the path, revalidate it, revalidate the collection tag. */
  function Revalidation(path: string): seq<Action> {
    [LogInfo("Revalidating project at path: " + path), RevalidatePath(path), RevalidateTag(CollectionTag)]
  }

  /**
   * `revalidateProject`: revalidates when the saved document is published, or
   * when it was published before and no longer is. The two conditions never
   * hold together, so at most one revalidation happens.
   */
  function RevalidateOnChange(doc: ProjectDoc, previousDoc: Option<ProjectDoc>, context: Record): (r: HookResult<ProjectDoc>)
    ensures r.doc == doc
    ensures r.actions == [] || r.actions == Revalidation(ProjectPath(doc.slug))
    ensures r.actions != [] <==>
      !Disabled(context) && (Published(doc) || (previousDoc.Some? && Published(previousDoc.value)))
  {
    if Disabled(context) then HookResult(doc, [])
    else
      var first := if Published(doc) then Revalidation(ProjectPath(doc.slug)) else [];
      var wasPublished := if previousDoc.Some? then previousDoc.value.status else Undefined;
      var second := if wasPublished == Str("published") && !Published(doc)
        then Revalidation(ProjectPath(doc.slug)) else [];
      HookResult(doc, first + second)
  }

  /**
   * `revalidateDelete`: always revalidates the deleted project's path unless
   * disabled; a missing document renders its slug as `undefined`.
   */
  function RevalidateOnDelete(doc: Option<ProjectDoc>, context: Record): HookResult<Option<ProjectDoc>> {
    if Disabled(context) then HookResult(doc, [])
    else
      var slug: NullableString := if doc.Some? then doc.value.slug else Undefined;
      HookResult(doc, Revalidation(ProjectPath(slug)))
  }

  /**
   * Deleting a project revalidates exactly as saving it published would, in
   * the same context and whatever the previous version was; the document is
   * returned unchanged, and only a disabled context keeps the delete quiet.
   */
  lemma DeleteActsLikePublish(doc: ProjectDoc, previousDoc: Option<ProjectDoc>, context: Record)
    ensures RevalidateOnDelete(Some(doc), context).doc == Some(doc)
    ensures RevalidateOnDelete(Some(doc), context).actions
      == RevalidateOnChange(doc.(status := Str("published")), previousDoc, context).actions
    ensures RevalidateOnDelete(Some(doc), context).actions == [] <==> Disabled(context)
  {
  }

  /** A delete hook called without a document still revalidates, with `undefined` as the slug. */
  lemma DeleteWithoutDoc(context: Record)
    ensures !Disabled(context) ==> RevalidateOnDelete(None, context).actions == Revalidation("/projects/undefined")
  {
    assert ProjectPath(Undefined) == "/projects/" + "undefined" == "/projects/undefined";
  }

  /** A draft that was never published triggers nothing, whatever the context. */
  lemma DraftIsQuiet(doc: ProjectDoc, previousDoc: Option<ProjectDoc>, context: Record)
    requires !Published(doc) && (previousDoc.None? || !Published(previousDoc.value))
    ensures RevalidateOnChange(doc, previousDoc, context).actions == []
  {
  }
}
