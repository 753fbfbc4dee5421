/**
 * The course-content API: walking a course tree, serializing its nodes into
 * flat records, expanding subtrees to a requested depth, composing course
 * records, and the request handlers that select what to serialize.
 *
 * Each helper builds its result step by step, as the views do; it is a
 * method proved equal to a specification function, and the promised
 * properties are lemmas about those functions.
 */
module CourseViews {
  import opened Wrappers
  import opened Payload

  // ---------------------------------------------------------------------
  // Data model
  // ---------------------------------------------------------------------

  /**
   * A course key. `text` is its string form. Two keys for the same course
   * may print differently (old slash-separated form versus opaque form), so
   * a descriptor's own `id` and the key a request resolved are kept apart.
   */
  datatype CourseKey = CourseKey(text: string)

  /** A content location: its parts and its own string form. */
  datatype Location = Location(org: string, course: string, run: string, category: string, text: string)

  /**
   * A content descriptor as the content store hands it out.
   * `category` is always present; `id` is the descriptor's course key, read
   * only on course roots; `attrs` holds the other plain attributes
   * (display_name, due, start, end, course_image, ...) that the views probe
   * with hasattr/getattr; `children` is get_children(), in authoring order.
   * `hasChildren` and `children` are separate attributes, as on a
   * descriptor: nothing ties one to the other.
   */
  datatype Node = Node(
    category: string,
    location: Location,
    id: CourseKey,
    attrs: map<string, Json>,
    hasChildren: bool,
    children: seq<Node>)

  /** A named URL route with its keyword arguments, as handed to `reverse`. */
  datatype Route = Reverse(name: string, kwargs: map<string, string>)

  /**
   * What a handler reads from the request: the query parameters it uses and
   * the absolute URI the request builds for a reversed route.
   */
  datatype Request = Request(
    includeFields: Option<string>,
    category: Option<string>,
    depth: Option<int>,
    courseIds: Option<string>,
    absoluteUri: Route -> string)

  const DetailRoute := "server_api:courses:detail"
  const ContentDetailRoute := "server_api:courses:content_detail"
  const ContentListRoute := "server_api:courses:content_list"

  /** The sub-resources advertised beside every course record. */
  const ResourceNames: seq<string> := ["content_list"]

  /** `reverse('server_api:courses:{}'.format(name), kwargs={'course_id': ...})`. */
  function ResourceRoute(name: string, courseId: string): Route
  {
    Reverse("server_api:courses:" + name, map["course_id" := courseId])
  }

  /** `getattr(node, name, None)`. */
  function GetAttr(n: Node, name: string): Json
  {
    if name == "category" then JStr(n.category)
    else if name in n.attrs then n.attrs[name]
    else JNull
  }

  /** The caller's `include_fields`, split at commas; none when absent or empty. */
  function IncludeFieldNames(req: Request): seq<string>
  {
    if Given(req.includeFields) then Split(req.includeFields.value, ',') else []
  }

  predicate IsCourseRoot(n: Node)
  {
    n.category == "course"
  }

  // ---------------------------------------------------------------------
  // _get_content_children
  // ---------------------------------------------------------------------

  /** `a` is `b` with some elements left out and the rest in the same order. */
  predicate IsSubsequence<T(==)>(a: seq<T>, b: seq<T>)
    decreases |b|
  {
    if a == [] then true
    else if b == [] then false
    else if a[|a| - 1] == b[|b| - 1] then IsSubsequence(a[..|a| - 1], b[..|b| - 1])
    else IsSubsequence(a, b[..|b| - 1])
  }

  /** The nodes of `s` whose category is `c`, in their order in `s`. */
  function WithCategory(s: seq<Node>, c: string): (r: seq<Node>)
    ensures |r| <= |s|
    ensures forall i :: 0 <= i < |r| ==> r[i].category == c
    decreases |s|
  {
    if s == [] then []
    else
      var r := WithCategory(s[..|s| - 1], c);
      if s[|s| - 1].category == c then r + [s[|s| - 1]] else r
  }

  /** Every node of category `c` is kept as often as it occurs; no other node is kept. */
  lemma {:induction false} WithCategoryCounts(s: seq<Node>, c: string, x: Node)
    ensures multiset(WithCategory(s, c))[x] == if x.category == c then multiset(s)[x] else 0
    decreases |s|
  {
    if s != [] {
      var init, last := s[..|s| - 1], s[|s| - 1];
      assert s == init + [last];
      WithCategoryCounts(init, c, x);
    }
  }

  /** The kept nodes appear in the order they have in `s`. */
  lemma {:induction false} WithCategoryOrdered(s: seq<Node>, c: string)
    ensures IsSubsequence(WithCategory(s, c), s)
    decreases |s|
  {
    if s != [] {
      var init, last := s[..|s| - 1], s[|s| - 1];
      var r := WithCategory(init, c);
      WithCategoryOrdered(init, c);
      if last.category == c {
        assert (r + [last])[..|r|] == r;
      } else if r != [] {
        assert r[|r| - 1].category == c;
      }
    }
  }

  /** What `_get_content_children` returns for a node and an optional category filter. */
  function ChildrenOf(n: Node, category: Option<string>): seq<Node>
  {
    if !n.hasChildren then []
    else if Given(category) then WithCategory(n.children, category.value)
    else n.children
  }

  /** A node without children yields nothing, whatever the filter. */
  lemma ChildrenOfLeaf(n: Node, category: Option<string>)
    requires !n.hasChildren
    ensures ChildrenOf(n, category) == []
  {
  }

  /** Without a filter the children come back exactly, in order. */
  lemma ChildrenOfUnfiltered(n: Node, category: Option<string>)
    requires n.hasChildren && !Given(category)
    ensures ChildrenOf(n, category) == n.children
  {
  }

  /**
   * With a filter the result keeps the children's order, every element has
   * the requested category, and every child of that category is kept as
   * often as it occurs.
   */
  lemma ChildrenOfFiltered(n: Node, category: Option<string>)
    requires Given(category)
    ensures var r := ChildrenOf(n, category);
      && IsSubsequence(r, n.children)
      && (forall i :: 0 <= i < |r| ==> r[i].category == category.value)
      && (forall x: Node :: multiset(r)[x] ==
            if x.category == category.value && n.hasChildren then multiset(n.children)[x] else 0)
  {
    WithCategoryOrdered(n.children, category.value);
    forall x: Node
      ensures multiset(ChildrenOf(n, category))[x] ==
                if x.category == category.value && n.hasChildren then multiset(n.children)[x] else 0
    {
      WithCategoryCounts(n.children, category.value, x);
    }
  }

  method GetContentChildren(content: Node, category: Option<string>) returns (children: seq<Node>)
    ensures children == ChildrenOf(content, category)
  {
    children := [];
    if content.hasChildren {
      var childContent := content.children;
      var i := 0;
      while i < |childContent|
        invariant 0 <= i <= |childContent|
        invariant children == if Given(category) then WithCategory(childContent[..i], category.value) else childContent[..i]
      {
        var child := childContent[i];
        if Given(category) {
          if child.category == category.value {
            children := children + [child];
          }
        } else {
          children := children + [child];
        }
        assert childContent[..i + 1][..i] == childContent[..i];
        i := i + 1;
      }
      assert childContent[..i] == childContent;
    }
  }

  // ---------------------------------------------------------------------
  // _serialize_content
  // ---------------------------------------------------------------------

  /** The `id` of a node's record: the course's own key on a root, else its location. */
  function ContentId(n: Node): string
  {
    if IsCourseRoot(n) then n.id.text else n.location.text
  }

  /** The `uri` of a node's record: course detail on a root, else content detail under `courseKey`. */
  function ContentUri(req: Request, courseKey: CourseKey, n: Node): string
  {
    if IsCourseRoot(n) then req.absoluteUri(Reverse(DetailRoute, map["course_id" := n.id.text]))
    else req.absoluteUri(Reverse(ContentDetailRoute, map["course_id" := courseKey.text, "content_id" := n.location.text]))
  }

  /** The record before the caller's extra fields are added. */
  function BaseRecord(req: Request, courseKey: CourseKey, n: Node): Record
  {
    var named := if "display_name" in n.attrs then map["name" := n.attrs["display_name"]] else map[];
    var dated := if "due" in n.attrs then named["due" := n.attrs["due"]] else named;
    var common := dated["start" := GetAttr(n, "start")]["end" := GetAttr(n, "end")]["category" := JStr(n.location.category)];
    var branch :=
      if IsCourseRoot(n) then
        common["course" := JStr(n.location.course)]["org" := JStr(n.location.org)]["run" := JStr(n.location.run)]
      else common;
    branch["id" := JStr(ContentId(n))]["uri" := JStr(ContentUri(req, courseKey, n))]
  }

  /** The extra fields the caller asked for, each set to the attribute or null. */
  function IncludedAttrs(n: Node, fields: seq<string>): Record
  {
    map f | f in fields :: GetAttr(n, f)
  }

  /** What `_serialize_content` returns: the extra fields are written last and win. */
  function Serialized(req: Request, courseKey: CourseKey, n: Node): Record
  {
    BaseRecord(req, courseKey, n) + IncludedAttrs(n, IncludeFieldNames(req))
  }

  /** A field of the record is the requested attribute if the caller asked for it, else the base record's. */
  lemma SerializedField(req: Request, courseKey: CourseKey, n: Node, k: string)
    ensures var r := Serialized(req, courseKey, n);
      && (k in IncludeFieldNames(req) ==> k in r && r[k] == GetAttr(n, k))
      && (k !in IncludeFieldNames(req) ==>
            (k in r <==> k in BaseRecord(req, courseKey, n)) && (k in r ==> r[k] == BaseRecord(req, courseKey, n)[k]))
  {
  }

  /** The always-present fields of the base record. */
  lemma BaseCommonFields(req: Request, courseKey: CourseKey, n: Node)
    ensures var b := BaseRecord(req, courseKey, n);
      && "start" in b && "end" in b && "category" in b && "id" in b && "uri" in b
      && b["start"] == (if "start" in n.attrs then n.attrs["start"] else JNull)
      && b["end"] == (if "end" in n.attrs then n.attrs["end"] else JNull)
      && b["category"] == JStr(n.location.category)
      && b["id"] == JStr(ContentId(n))
      && b["uri"] == JStr(ContentUri(req, courseKey, n))
  {
  }

  /** The fields of the base record that depend on the node's attributes and kind. */
  lemma BaseOptionalFields(req: Request, courseKey: CourseKey, n: Node)
    ensures var b := BaseRecord(req, courseKey, n);
      && ("name" in b <==> "display_name" in n.attrs)
      && ("due" in b <==> "due" in n.attrs)
      && ("name" in b ==> b["name"] == n.attrs["display_name"])
      && ("due" in b ==> b["due"] == n.attrs["due"])
      && ("course" in b <==> IsCourseRoot(n)) && ("org" in b <==> IsCourseRoot(n)) && ("run" in b <==> IsCourseRoot(n))
      && (IsCourseRoot(n) ==>
            b["course"] == JStr(n.location.course) && b["org"] == JStr(n.location.org) && b["run"] == JStr(n.location.run))
  {
  }

  /** Every record has start, end, category, id and uri; start and end are null when absent. */
  lemma SerializedCommonFields(req: Request, courseKey: CourseKey, n: Node)
    ensures var r := Serialized(req, courseKey, n);
      && "start" in r && "end" in r && "category" in r && "id" in r && "uri" in r
      && ("start" !in IncludeFieldNames(req) ==> r["start"] == (if "start" in n.attrs then n.attrs["start"] else JNull))
      && ("end" !in IncludeFieldNames(req) ==> r["end"] == (if "end" in n.attrs then n.attrs["end"] else JNull))
      && ("category" !in IncludeFieldNames(req) ==> r["category"] == JStr(n.location.category))
  {
    BaseCommonFields(req, courseKey, n);
    SerializedField(req, courseKey, n, "start");
    SerializedField(req, courseKey, n, "end");
    SerializedField(req, courseKey, n, "category");
    SerializedField(req, courseKey, n, "id");
    SerializedField(req, courseKey, n, "uri");
  }

  /** `name` and `due` appear only when the node has them (or the caller asked for them). */
  lemma SerializedOptionalFields(req: Request, courseKey: CourseKey, n: Node)
    ensures var r := Serialized(req, courseKey, n);
      && ("name" in r <==> "display_name" in n.attrs || "name" in IncludeFieldNames(req))
      && ("due" in r <==> "due" in n.attrs || "due" in IncludeFieldNames(req))
      && ("display_name" in n.attrs && "name" !in IncludeFieldNames(req) ==> r["name"] == n.attrs["display_name"])
      && ("due" in n.attrs && "due" !in IncludeFieldNames(req) ==> r["due"] == n.attrs["due"])
  {
    BaseOptionalFields(req, courseKey, n);
    SerializedField(req, courseKey, n, "name");
    SerializedField(req, courseKey, n, "due");
  }

  /** A course root carries course, org and run; its id is its own key and its uri the course detail route. */
  lemma SerializedCourseRoot(req: Request, courseKey: CourseKey, n: Node)
    requires IsCourseRoot(n)
    requires forall f :: f in IncludeFieldNames(req) ==> f !in {"course", "org", "run", "id", "uri"}
    ensures var r := Serialized(req, courseKey, n);
      && "course" in r && "org" in r && "run" in r && "id" in r && "uri" in r
      && r["course"] == JStr(n.location.course)
      && r["org"] == JStr(n.location.org)
      && r["run"] == JStr(n.location.run)
      && r["id"] == JStr(n.id.text)
      && r["uri"] == JStr(req.absoluteUri(Reverse(DetailRoute, map["course_id" := n.id.text])))
  {
    BaseCommonFields(req, courseKey, n);
    BaseOptionalFields(req, courseKey, n);
    SerializedField(req, courseKey, n, "course");
    SerializedField(req, courseKey, n, "org");
    SerializedField(req, courseKey, n, "run");
    SerializedField(req, courseKey, n, "id");
    SerializedField(req, courseKey, n, "uri");
  }

  /**
   * A descendant carries none of course, org and run unless asked for; its id
   * is its location and its uri the content detail route under `courseKey`.
   */
  lemma SerializedDescendant(req: Request, courseKey: CourseKey, n: Node)
    requires !IsCourseRoot(n)
    ensures var r := Serialized(req, courseKey, n);
      && ("course" in r <==> "course" in IncludeFieldNames(req))
      && ("org" in r <==> "org" in IncludeFieldNames(req))
      && ("run" in r <==> "run" in IncludeFieldNames(req))
      && ("id" !in IncludeFieldNames(req) ==> r["id"] == JStr(n.location.text))
      && ("uri" !in IncludeFieldNames(req) ==>
            r["uri"] == JStr(req.absoluteUri(Reverse(ContentDetailRoute,
                                  map["course_id" := courseKey.text, "content_id" := n.location.text]))))
  {
    BaseCommonFields(req, courseKey, n);
    BaseOptionalFields(req, courseKey, n);
    SerializedField(req, courseKey, n, "course");
    SerializedField(req, courseKey, n, "org");
    SerializedField(req, courseKey, n, "run");
    SerializedField(req, courseKey, n, "id");
    SerializedField(req, courseKey, n, "uri");
  }

  /** Each requested field is present, set to the attribute or null, overriding any earlier value. */
  lemma SerializedIncludeFields(req: Request, courseKey: CourseKey, n: Node)
    ensures var r := Serialized(req, courseKey, n);
      forall f :: f in IncludeFieldNames(req) ==> f in r && r[f] == GetAttr(n, f)
  {
  }

  /** Writing one more requested field extends the overlay by that field. */
  lemma IncludedAttrsStep(base: Record, n: Node, fields: seq<string>, i: nat)
    requires i < |fields|
    ensures base + IncludedAttrs(n, fields[..i + 1])
         == (base + IncludedAttrs(n, fields[..i]))[fields[i] := GetAttr(n, fields[i])]
  {
    assert IncludedAttrs(n, fields[..i + 1]) == IncludedAttrs(n, fields[..i])[fields[i] := GetAttr(n, fields[i])];
  }

  method SerializeContent(req: Request, courseKey: CourseKey, n: Node) returns (data: Record)
    ensures data == Serialized(req, courseKey, n)
  {
    data := map[];
    if "display_name" in n.attrs {
      data := data["name" := n.attrs["display_name"]];
    }
    if "due" in n.attrs {
      data := data["due" := n.attrs["due"]];
    }
    data := data["start" := GetAttr(n, "start")];
    data := data["end" := GetAttr(n, "end")];
    data := data["category" := JStr(n.location.category)];
    var contentId, contentUri;
    if n.category == "course" {
      contentId := n.id.text;
      contentUri := req.absoluteUri(Reverse(DetailRoute, map["course_id" := contentId]));
      data := data["course" := JStr(n.location.course)];
      data := data["org" := JStr(n.location.org)];
      data := data["run" := JStr(n.location.run)];
    } else {
      contentId := n.location.text;
      contentUri := req.absoluteUri(Reverse(ContentDetailRoute,
                                            map["course_id" := courseKey.text, "content_id" := contentId]));
    }
    data := data["id" := JStr(contentId)];
    data := data["uri" := JStr(contentUri)];
    ghost var base := data;
    assert base == BaseRecord(req, courseKey, n);
    if Given(req.includeFields) {
      var fields := Split(req.includeFields.value, ',');
      var i := 0;
      while i < |fields|
        invariant 0 <= i <= |fields|
        invariant data == base + IncludedAttrs(n, fields[..i])
      {
        IncludedAttrsStep(base, n, fields, i);
        data := data[fields[i] := GetAttr(n, fields[i])];
        i := i + 1;
      }
      assert fields[..i] == fields;
    } else {
      assert IncludedAttrs(n, []) == map[];
    }
  }

  // ---------------------------------------------------------------------
  // _serialize_content_children
  // ---------------------------------------------------------------------

  /** The records of `children`, one per child, in order. */
  function SerializedList(req: Request, courseKey: CourseKey, children: seq<Node>): (rs: seq<Record>)
    ensures |rs| == |children|
    ensures forall i :: 0 <= i < |children| ==> rs[i] == Serialized(req, courseKey, children[i])
  {
    seq(|children|, i requires 0 <= i < |children| => Serialized(req, courseKey, children[i]))
  }

  method SerializeContentChildren(req: Request, courseKey: CourseKey, children: seq<Node>) returns (data: seq<Record>)
    ensures |data| == |children|
    ensures forall i :: 0 <= i < |children| ==> data[i] == Serialized(req, courseKey, children[i])
  {
    data := [];
    if children != [] {
      var i := 0;
      while i < |children|
        invariant 0 <= i <= |children|
        invariant |data| == i
        invariant forall j :: 0 <= j < i ==> data[j] == Serialized(req, courseKey, children[j])
      {
        var childData := SerializeContent(req, courseKey, children[i]);
        data := data + [childData];
        i := i + 1;
      }
    }
  }

  // ---------------------------------------------------------------------
  // _serialize_content_with_children
  // ---------------------------------------------------------------------

  /** What `_serialize_content_with_children` returns for `n` expanded `depth` levels down. */
  function Expanded(req: Request, courseKey: CourseKey, n: Node, depth: int): Record
    decreases n
  {
    var data := Serialized(req, courseKey, n);
    if depth > 0 then
      data["children" := JList(seq(|n.children|, i requires 0 <= i < |n.children| =>
                                     JObj(Expanded(req, courseKey, n.children[i], depth - 1))))]
    else data
  }

  /** Nested `children` lists go at most `height` levels deep. */
  predicate ChildrenWithin(r: Record, height: nat)
    decreases height
  {
    "children" in r ==>
      && height > 0
      && r["children"].JList?
      && forall i :: 0 <= i < |r["children"].items| ==>
           r["children"].items[i].JObj? && ChildrenWithin(r["children"].items[i].fields, height - 1)
  }

  /** At depth 0 (or below) the record is the plain serialization: no children are expanded. */
  lemma ExpandedAtDepthZero(req: Request, courseKey: CourseKey, n: Node, depth: int)
    requires depth <= 0
    ensures Expanded(req, courseKey, n, depth) == Serialized(req, courseKey, n)
    ensures "children" !in IncludeFieldNames(req) ==> "children" !in Expanded(req, courseKey, n, depth)
  {
  }

  /**
   * Above depth 0 the record is the node's serialization plus `children`:
   * one entry per child, in order, each expanded one level less deep.
   */
  lemma ExpandedChildren(req: Request, courseKey: CourseKey, n: Node, depth: int)
    requires depth > 0
    ensures var r := Expanded(req, courseKey, n, depth);
      && "children" in r && r["children"].JList?
      && |r["children"].items| == |n.children|
      && (forall i :: 0 <= i < |n.children| ==>
            r["children"].items[i] == JObj(Expanded(req, courseKey, n.children[i], depth - 1)))
      && (forall k :: k != "children" ==> (k in r <==> k in Serialized(req, courseKey, n)))
      && (forall k :: k != "children" && k in r ==> r[k] == Serialized(req, courseKey, n)[k])
  {
  }

  /** The expanded tree is at most `depth` levels high (unless the caller asked for a `children` field). */
  lemma {:induction false} ExpandedHeight(req: Request, courseKey: CourseKey, n: Node, depth: int)
    requires "children" !in IncludeFieldNames(req)
    ensures ChildrenWithin(Expanded(req, courseKey, n, depth), if depth > 0 then depth else 0)
    decreases n
  {
    if depth > 0 {
      var r := Expanded(req, courseKey, n, depth);
      var items := r["children"].items;
      forall i | 0 <= i < |items|
        ensures items[i].JObj? && ChildrenWithin(items[i].fields, depth - 1)
      {
        ExpandedHeight(req, courseKey, n.children[i], depth - 1);
      }
    }
  }

  method SerializeContentWithChildren(req: Request, courseKey: CourseKey, descriptor: Node, depth: int)
    returns (data: Record)
    ensures data == Expanded(req, courseKey, descriptor, depth)
    decreases descriptor
  {
    data := SerializeContent(req, courseKey, descriptor);
    if depth > 0 {
      var children: seq<Json> := [];
      data := data["children" := JList(children)];
      var i := 0;
      while i < |descriptor.children|
        invariant 0 <= i <= |descriptor.children|
        invariant |children| == i
        invariant forall j :: 0 <= j < i ==>
                    children[j] == JObj(Expanded(req, courseKey, descriptor.children[j], depth - 1))
        invariant data == Serialized(req, courseKey, descriptor)["children" := JList(children)]
      {
        var child := SerializeContentWithChildren(req, courseKey, descriptor.children[i], depth - 1);
        children := children + [JObj(child)];
        data := data["children" := JList(children)];
        i := i + 1;
      }
      assert children == seq(|descriptor.children|, j requires 0 <= j < |descriptor.children| =>
                               JObj(Expanded(req, courseKey, descriptor.children[j], depth - 1)));
    }
  }

  // ---------------------------------------------------------------------
  // _get_course_data
  // ---------------------------------------------------------------------

  /** The `resources` list: one `{uri}` entry per advertised sub-resource, in order. */
  function Resources(req: Request, courseKey: CourseKey): seq<Json>
  {
    seq(|ResourceNames|, i requires 0 <= i < |ResourceNames| =>
      JObj(map["uri" := JStr(req.absoluteUri(ResourceRoute(ResourceNames[i], courseKey.text)))]))
  }

  /** The course's image attribute; `getattr(course, 'course_image')` has no default. */
  predicate HasCourseImage(n: Node)
  {
    "course_image" in n.attrs
  }

  /**
   * What `_get_course_data` returns. `imageUrl` is what the course-image
   * collaborator computes for this course.
   */
  function CourseData(req: Request, courseKey: CourseKey, course: Node, depth: int, imageUrl: string): Record
    requires HasCourseImage(course)
  {
    var data :=
      if depth > 0 then
        var expanded := Expanded(req, courseKey, course, depth);
        expanded["content" := expanded["children"]] - {"children"}
      else Serialized(req, courseKey, course);
    data["course_image_url" := JStr(if Truthy(course.attrs["course_image"]) then imageUrl else "")]
        ["resources" := JList(Resources(req, courseKey))]
  }

  /**
   * Above depth 0 the expanded children move from `children` to `content`.
   * Always, `course_image_url` is the image URL or the empty string, and
   * `resources` holds exactly one entry: the content-list route of the course.
   */
  lemma CourseDataShape(req: Request, courseKey: CourseKey, course: Node, depth: int, imageUrl: string)
    requires HasCourseImage(course)
    ensures var r := CourseData(req, courseKey, course, depth, imageUrl);
      && (depth > 0 ==> "content" in r && "children" !in r
                        && r["content"] == Expanded(req, courseKey, course, depth)["children"])
      && r["course_image_url"] == JStr(if Truthy(course.attrs["course_image"]) then imageUrl else "")
      && r["resources"] == JList([JObj(map["uri" := JStr(req.absoluteUri(
                                   Reverse(ContentListRoute, map["course_id" := courseKey.text])))])])
  {
    assert "server_api:courses:" + ResourceNames[0] == ContentListRoute;
    var rs := Resources(req, courseKey);
    assert |rs| == 1;
    assert rs[0] == JObj(map["uri" := JStr(req.absoluteUri(ResourceRoute(ResourceNames[0], courseKey.text)))]);
    assert Resources(req, courseKey) == [JObj(map["uri" := JStr(req.absoluteUri(
                                   Reverse(ContentListRoute, map["course_id" := courseKey.text])))])];
  }

  /**
   * Every other field of the course record is that of the node's own
   * serialization (at depth 0) or of its expansion (above depth 0).
   */
  lemma CourseDataKeepsRecord(req: Request, courseKey: CourseKey, course: Node, depth: int, imageUrl: string, k: string)
    requires HasCourseImage(course)
    requires k !in {"course_image_url", "resources", "content", "children"}
    ensures var r := CourseData(req, courseKey, course, depth, imageUrl);
      && (k in r <==> k in Serialized(req, courseKey, course))
      && (k in r ==> r[k] == Serialized(req, courseKey, course)[k])
  {
  }

  method GetCourseData(req: Request, courseKey: CourseKey, course: Node, depth: int, imageUrl: string)
    returns (data: Record)
    requires HasCourseImage(course)
    ensures data == CourseData(req, courseKey, course, depth, imageUrl)
  {
    if depth > 0 {
      data := SerializeContentWithChildren(req, courseKey, course, depth);
      ExpandedChildren(req, courseKey, course, depth);
      data := data["content" := data["children"]];
      data := data - {"children"};
    } else {
      data := SerializeContent(req, courseKey, course);
    }
    data := data["course_image_url" := JStr("")];
    if Truthy(course.attrs["course_image"]) {
      data := data["course_image_url" := JStr(imageUrl)];
    }
    var resources: seq<Json> := [];
    var i := 0;
    while i < |ResourceNames|
      invariant 0 <= i <= |ResourceNames|
      invariant resources == Resources(req, courseKey)[..i]
    {
      resources := resources + [JObj(map["uri" := JStr(req.absoluteUri(ResourceRoute(ResourceNames[i], courseKey.text)))])];
      i := i + 1;
    }
    assert Resources(req, courseKey)[..i] == Resources(req, courseKey);
    data := data["resources" := JList(resources)];
  }

  // ---------------------------------------------------------------------
  // Request handlers
  // ---------------------------------------------------------------------

  /**
   * The content store as the handlers see it: the key a course id string
   * resolves to (`get_course_key`; its printed form need not be the id it
   * was parsed from), course descriptors by key, content descriptors by
   * (course key, content id), the full course catalogue, and the
   * course-image URL of a course.
   */
  datatype Store = Store(
    keyOf: string -> CourseKey,
    courses: map<CourseKey, Node>,
    blocks: map<(CourseKey, string), Node>,
    catalog: seq<Node>,
    courseImageUrl: Node -> string)

  datatype Status = HttpOk | HttpNotFound

  /** A handler's outcome: a response, or an exception that escapes the view. */
  datatype Reply = Respond(status: Status, body: Json) | Raised

  /** The node whose children a content-list request addresses: the course itself when no other content is named. */
  function ContentTarget(store: Store, courseId: string, contentId: Option<string>, course: Node): Option<Node>
  {
    var cid := if contentId.None? then courseId else contentId.value;
    if courseId != cid then Get(store.blocks, (store.keyOf(courseId), cid)) else Some(course)
  }

  /** `CourseContentList.get`. */
  method CourseContentListGet(req: Request, store: Store, courseId: string, contentId: Option<string>)
    returns (reply: Reply)
    ensures var key := store.keyOf(courseId);
      key !in store.courses ==> reply == Respond(HttpNotFound, JObj(map[]))
    ensures var key := store.keyOf(courseId);
      key in store.courses ==>
        match ContentTarget(store, courseId, contentId, store.courses[key])
        case None => reply == Respond(HttpNotFound, JList([]))
        case Some(content) =>
          reply == Respond(HttpOk, JList(Objects(SerializedList(req, key, ChildrenOf(content, req.category)))))
    ensures var key := store.keyOf(courseId);
      key in store.courses && contentId.None? ==>
        reply == Respond(HttpOk, JList(Objects(SerializedList(req, key, ChildrenOf(store.courses[key], req.category)))))
  {
    var courseKey := store.keyOf(courseId);
    if courseKey !in store.courses {
      return Respond(HttpNotFound, JObj(map[]));
    }
    var courseDescriptor := store.courses[courseKey];
    var cid := if contentId.None? then courseId else contentId.value;
    var content: Option<Node>;
    if courseId != cid {
      content := Get(store.blocks, (courseKey, cid));
    } else {
      content := Some(courseDescriptor);
    }
    if content.Some? {
      var children := GetContentChildren(content.value, req.category);
      var data := SerializeContentChildren(req, courseKey, children);
      assert data == SerializedList(req, courseKey, children);
      reply := Respond(HttpOk, JList(Objects(data)));
    } else {
      reply := Respond(HttpNotFound, JList([]));
    }
  }

  /** The depth a request asks for, or `default` when it names none. */
  function DepthOr(req: Request, default: int): int
  {
    if req.depth.Some? then req.depth.value else default
  }

  /** `CourseContentDetail.get`: the addressed content expanded to the requested depth (0 by default). */
  method CourseContentDetailGet(req: Request, store: Store, courseId: string, contentId: string)
    returns (reply: Reply)
    ensures var key := store.keyOf(courseId);
      (key, contentId) !in store.blocks ==> reply == Raised
    ensures var key := store.keyOf(courseId);
      (key, contentId) in store.blocks ==>
        reply == Respond(HttpOk, JObj(Expanded(req, key, store.blocks[(key, contentId)], DepthOr(req, 0))))
  {
    var depth := DepthOr(req, 0);
    var courseKey := store.keyOf(courseId);
    var contentDescriptor := Get(store.blocks, (courseKey, contentId));
    if contentDescriptor.None? {
      return Raised;
    }
    var data := SerializeContentWithChildren(req, courseKey, contentDescriptor.value, depth);
    reply := Respond(HttpOk, JObj(data));
  }

  /** `CourseDetail.get`: the course record at the requested depth (0 by default). */
  method CourseDetailGet(req: Request, store: Store, courseId: string) returns (reply: Reply)
    ensures var key := store.keyOf(courseId);
      key !in store.courses ==> reply == Respond(HttpNotFound, JObj(map[]))
    ensures var key := store.keyOf(courseId);
      key in store.courses && !HasCourseImage(store.courses[key]) ==> reply == Raised
    ensures var key := store.keyOf(courseId);
      key in store.courses && HasCourseImage(store.courses[key]) ==>
        reply == Respond(HttpOk, JObj(CourseData(req, key, store.courses[key], DepthOr(req, 0),
                                                 store.courseImageUrl(store.courses[key]))))
  {
    var depth := DepthOr(req, 0);
    var courseKey := store.keyOf(courseId);
    if courseKey !in store.courses {
      return Respond(HttpNotFound, JObj(map[]));
    }
    var courseDescriptor := store.courses[courseKey];
    if !HasCourseImage(courseDescriptor) {
      return Raised;
    }
    var data := GetCourseData(req, courseKey, courseDescriptor, depth, store.courseImageUrl(courseDescriptor));
    reply := Respond(HttpOk, JObj(data));
  }

  /** The descriptors a course-list request resolves: one lookup per listed id, or the whole catalogue. */
  function ListedCourses(req: Request, store: Store): seq<Option<Node>>
  {
    if Given(req.courseIds) then
      var ids := Split(req.courseIds.value, ',');
      seq(|ids|, i requires 0 <= i < |ids| => Get(store.courses, store.keyOf(ids[i])))
    else
      seq(|store.catalog|, i requires 0 <= i < |store.catalog| => Some(store.catalog[i]))
  }

  /** A resolved descriptor that `_get_course_data` can serialize. */
  predicate Serializable(d: Option<Node>)
  {
    d.Some? && HasCourseImage(d.value)
  }

  /** The record of one listed course: keyed by the descriptor's own id. */
  function ListedRecord(req: Request, store: Store, course: Node): Record
    requires HasCourseImage(course)
  {
    CourseData(req, course.id, course, DepthOr(req, 0), store.courseImageUrl(course))
  }

  /** The descriptor lookups of `CourseList.get_queryset`, in request order. */
  method ResolveListedCourses(req: Request, store: Store) returns (descriptors: seq<Option<Node>>)
    ensures descriptors == ListedCourses(req, store)
  {
    descriptors := [];
    if Given(req.courseIds) {
      var ids := Split(req.courseIds.value, ',');
      var i := 0;
      while i < |ids|
        invariant 0 <= i <= |ids|
        invariant |descriptors| == i
        invariant forall k :: 0 <= k < i ==> descriptors[k] == Get(store.courses, store.keyOf(ids[k]))
      {
        var courseKey := store.keyOf(ids[i]);
        descriptors := descriptors + [Get(store.courses, courseKey)];
        i := i + 1;
      }
    } else {
      descriptors := seq(|store.catalog|, i requires 0 <= i < |store.catalog| => Some(store.catalog[i]));
    }
  }

  /**
   * `CourseList.get_queryset`: with an id list, one record per comma-separated
   * id, in the given order; otherwise one per catalogue course. An id that
   * resolves to nothing makes the view fail.
   */
  method CourseListGetQueryset(req: Request, store: Store) returns (reply: Reply)
    ensures var ds := ListedCourses(req, store);
      (exists i :: 0 <= i < |ds| && !Serializable(ds[i])) ==> reply == Raised
    ensures var ds := ListedCourses(req, store);
      (forall i :: 0 <= i < |ds| ==> Serializable(ds[i])) ==>
        && reply.Respond? && reply.status == HttpOk && reply.body.JList?
        && |reply.body.items| == |ds|
        && forall i :: 0 <= i < |ds| ==> reply.body.items[i] == JObj(ListedRecord(req, store, ds[i].value))
    ensures Given(req.courseIds) && reply.Respond? ==>
      |reply.body.items| == |Split(req.courseIds.value, ',')|
  {
    var depth := DepthOr(req, 0);
    var descriptors := ResolveListedCourses(req, store);
    var results: seq<Json> := [];
    var j := 0;
    while j < |descriptors|
      invariant 0 <= j <= |descriptors|
      invariant forall k :: 0 <= k < j ==> Serializable(descriptors[k])
      invariant |results| == j
      invariant forall k :: 0 <= k < j ==> results[k] == JObj(ListedRecord(req, store, descriptors[k].value))
    {
      var descriptor := descriptors[j];
      if !Serializable(descriptor) {
        return Raised;
      }
      var data := GetCourseData(req, descriptor.value.id, descriptor.value, depth, store.courseImageUrl(descriptor.value));
      results := results + [JObj(data)];
      j := j + 1;
    }
    reply := Respond(HttpOk, JList(results));
  }
}
