# Course content API and cohort partition scheme, in Dafny

This project models two decision engines of an online-course platform.

- **The course-content API** (`lms/djangoapps/server_api/courses/views.py`).
  It walks a course tree and picks a node's direct children, optionally
  filtered by category. It serializes one node into a flat record. A course
  root and a descendant get different `id` and `uri` fields, and
  caller-requested `include_fields` are written last. It expands a subtree
  down to a requested `depth`. It composes a course record with `content`,
  `course_image_url` and `resources`. Four request handlers choose what to
  serialize.
- **The cohort partition scheme** (`openedx/core/djangoapps/course_groups/partition_scheme.py`).
  It resolves the group a user sees in a user partition: a live masquerade
  first, then the user's cohort and its mapping, checked against the queried
  partition. Every stale or missing piece ends in "no group". It also finds
  a course's first cohort-driven partition.

Files:

- `wrappers.dfy`: `Option` and dictionary lookup.
- `payload.dfy`: JSON-shaped values, Python truthiness, and `str.split(',')`
  with its join round trip.
- `course_views.dfy`: the views module.
- `partition_scheme.dfy`: the partition scheme.

The views build their results step by step, so each helper is a `method`
with loops. Each method is proved equal to a specification function
(`ChildrenOf`, `Serialized`, `Expanded`, `CourseData`). The promised
properties are lemmas about those functions. The handlers are methods whose
postconditions fix the whole reply. The partition scheme is a pure function
whose postconditions state each step of the precedence chain.
`get_cohorted_user_partition` is a method with the source's loop.

Three behaviours of the views that a reader might not expect, all kept:

- With an explicit id list, the course list still passes the request's
  `depth` to `_get_course_data` (views.py:330). Only the descriptor lookup
  uses depth 0 (views.py:325).
- `_serialize_content_with_children` calls `get_children()` without checking
  `has_children` (views.py:116). So any depth above 0 yields a `children`
  list, empty exactly when `get_children()` is empty, even for a node whose
  `has_children` is false.
- `include_fields` can overwrite any earlier field, including `id` and
  `uri` (views.py:80-81).

## Model

| member | source | states |
|---|---|---|
| `Payload.Split` | lms/djangoapps/server_api/courses/views.py:79 | the comma-split of a query value: at least one piece, no piece holds a comma, and joining the pieces with commas gives the value back |
| `Payload.SplitJoin` | lms/djangoapps/server_api/courses/views.py:322 | splitting a comma-join of comma-free pieces gives exactly those pieces, in order, so an id list yields one entry per id |
| `CourseViews.WithCategory` | lms/djangoapps/server_api/courses/views.py:28-31 | the filtered children all have the requested category and are no more than the children |
| `CourseViews.WithCategoryCounts` | lms/djangoapps/server_api/courses/views.py:28-31 | each child of the requested category is kept exactly as often as it occurs, and no other node is kept |
| `CourseViews.WithCategoryOrdered` | lms/djangoapps/server_api/courses/views.py:28-31 | the filtered children are an order-preserving subsequence of the children |
| `CourseViews.ChildrenOfLeaf` | lms/djangoapps/server_api/courses/views.py:25-34 | a node whose has_children is false yields the empty list, whatever the filter |
| `CourseViews.ChildrenOfUnfiltered` | lms/djangoapps/server_api/courses/views.py:32-33 | without a filter the result is exactly the node's children, in order |
| `CourseViews.ChildrenOfFiltered` | lms/djangoapps/server_api/courses/views.py:28-31 | with a filter the result is an ordered subsequence, every element has the category, and the multiplicity of every node is its count among matching children (zero otherwise) |
| `CourseViews.GetContentChildren` | lms/djangoapps/server_api/courses/views.py:20-34 | the append loop returns exactly ChildrenOf(node, category) |
| `CourseViews.BaseCommonFields` | lms/djangoapps/server_api/courses/views.py:51-74 | before include_fields, start, end, category, id and uri are always present; start and end are null when absent; id and uri are those of the node's kind |
| `CourseViews.BaseOptionalFields` | lms/djangoapps/server_api/courses/views.py:45-62 | before include_fields, name and due appear iff the node has display_name and due; course, org and run appear iff the node is a course root, taken from its location |
| `CourseViews.SerializedField` | lms/djangoapps/server_api/courses/views.py:76-81 | a requested field holds the node's attribute or null; any other field is the base record's |
| `CourseViews.SerializedCommonFields` | lms/djangoapps/server_api/courses/views.py:51-54 | every record has start, end, category, id and uri; start/end are null when the node lacks them; category is the location's category |
| `CourseViews.SerializedOptionalFields` | lms/djangoapps/server_api/courses/views.py:45-49 | name and due are present iff the node has display_name/due (or they were requested), with the node's values |
| `CourseViews.SerializedCourseRoot` | lms/djangoapps/server_api/courses/views.py:57-74 | a course root's record has course, org and run from its location, id = its own key's string and uri = the detail route for that id, when the caller does not request any of course, org, run, id or uri |
| `CourseViews.SerializedDescendant` | lms/djangoapps/server_api/courses/views.py:64-74 | a descendant's record has no course/org/run unless requested, id = its location string and uri = the content_detail route built from the request's course key |
| `CourseViews.SerializedIncludeFields` | lms/djangoapps/server_api/courses/views.py:77-81 | every requested name is in the record with the node's attribute or null, overriding earlier values |
| `CourseViews.SerializeContent` | lms/djangoapps/server_api/courses/views.py:37-83 | the step-by-step record, with its include_fields loop, equals Serialized(request, course key, node) |
| `CourseViews.SerializeContentChildren` | lms/djangoapps/server_api/courses/views.py:86-100 | one record per child, in order, each the child's serialization |
| `CourseViews.ExpandedAtDepthZero` | lms/djangoapps/server_api/courses/views.py:108-114 | at depth 0 or below the expansion is the plain record, with no children key unless requested |
| `CourseViews.ExpandedChildren` | lms/djangoapps/server_api/courses/views.py:114-117 | above depth 0, children has one entry per get_children() element, in order, each expanded at depth - 1; every other field is unchanged |
| `CourseViews.ExpandedHeight` | lms/djangoapps/server_api/courses/views.py:103-118 | the nesting of children lists is at most depth levels |
| `CourseViews.SerializeContentWithChildren` | lms/djangoapps/server_api/courses/views.py:103-118 | the recursive method with its append loop returns exactly Expanded(request, course key, node, depth) |
| `CourseViews.CourseDataShape` | lms/djangoapps/server_api/courses/views.py:126-150 | above depth 0 the record has content (the expanded children) and no children; course_image_url is the image URL when course_image is truthy, else empty; resources is exactly one {uri} entry for the content_list route of the course key |
| `CourseViews.CourseDataKeepsRecord` | lms/djangoapps/server_api/courses/views.py:126-140 | every other field of the course record is the node's own serialized field |
| `CourseViews.GetCourseData` | lms/djangoapps/server_api/courses/views.py:121-152 | the step-by-step course record, with its resources loop, equals CourseData(...) |
| `CourseViews.CourseContentListGet` | lms/djangoapps/server_api/courses/views.py:197-226 | a missing course gives not-found with {}; a missing content_id means the course itself; missing content gives not-found with []; otherwise found with the serialized (filtered) children |
| `CourseViews.CourseContentDetailGet` | lms/djangoapps/server_api/courses/views.py:272-283 | the addressed content expanded at the requested depth (default 0); an unresolvable content id makes the view fail |
| `CourseViews.CourseDetailGet` | lms/djangoapps/server_api/courses/views.py:380-391 | a missing course gives not-found with {}; otherwise found with the course record at the requested depth (default 0) under the resolved key |
| `CourseViews.ResolveListedCourses` | lms/djangoapps/server_api/courses/views.py:318-328 | with an id list, one descriptor lookup per comma-separated id, in order; otherwise the whole catalogue |
| `CourseViews.CourseListGetQueryset` | lms/djangoapps/server_api/courses/views.py:317-332 | exactly one record per listed course, in order, each keyed by the descriptor's own id; with an id list as many records as ids; an unresolvable id makes the view fail |
| `PartitionScheme.FindGroup` | openedx/core/djangoapps/course_groups/partition_scheme.py:75-77 | a found group has the requested id and belongs to the group list; none exactly when no group has that id |
| `PartitionScheme.GetGroup` | openedx/core/djangoapps/course_groups/partition_scheme.py:43-47 | a group is returned only from the partition's own groups with the requested id; none (the "no such group" error) when the id is absent or unknown |
| `PartitionScheme.GetGroupForUser` | openedx/core/djangoapps/course_groups/partition_scheme.py:25-91 | a live masquerade wins without a cohort lookup; no cohort, no mapping, a mismatched partition (one warning) and a missing group (one warning) each give no group; a returned group belongs to the queried partition; a group is returned iff a live masquerade or a cohort mapped into this partition names an existing group |
| `PartitionScheme.MasqueradeIgnoresCohort` | openedx/core/djangoapps/course_groups/partition_scheme.py:41-44 | under a live masquerade the result is the same whatever the cohort state |
| `PartitionScheme.StaleMasqueradeFallsThrough` | openedx/core/djangoapps/course_groups/partition_scheme.py:45-47 | a masquerade whose group left the partition is not an error: resolution proceeds exactly as without a masquerade |
| `PartitionScheme.GetCohortedUserPartition` | openedx/core/djangoapps/course_groups/partition_scheme.py:94-105 | the result is the first partition, in declared order, with the cohort scheme; none iff no partition uses it |

## Left out

- HTTP transport is not modelled: `Response` objects, status codes, permission
  classes, pagination and the list view's `CourseSerializer` pass
  (views.py:315). `CourseListGetQueryset` wraps the list that
  `get_queryset` returns in a found reply. A handler's outcome is `Respond(found or not-found,
  body)`, or `Raised` when an exception escapes the view.
- URL reversal and `build_absolute_uri` are the request's `absoluteUri`
  function over `Reverse(route name, kwargs)`. The URL patterns of
  `lms/djangoapps/server_api/courses/urls.py` are not part of this model.
- The collaborators `get_course_key` (and the key `get_course` resolves),
  `get_course`, `get_course_child`, `get_course_descriptor`,
  `get_modulestore().get_courses()` and `course_image_url` are lookups in a
  `Store` value. The resolved key is an arbitrary function of the id string,
  so its printed form may differ from the id in the request. Access checks for the requesting user and load depths are
  not modelled. `get_course_child` yields one node for both descriptor and
  loaded content.
- Parse failures of `get_course_key` and `int()` failures on `depth` are not
  modelled. Every course id resolves to a key, and `depth` is an integer when given.
- The course list reads `depth` raw from the query string (views.py:319).
  Under Python 2 a given value is a string. Only the integer path is
  modelled: the default 0, or an integer.
- Python's dynamic `getattr` is an attribute map plus the always-present
  `category`. An `include_fields` name that refers to a structured attribute
  (`location`, `id`, `children` objects) is looked up only in that map.
- `CourseContentDetail.get` and `CourseList.get_queryset` fail (`Raised`)
  when a descriptor is missing, because the code dereferences it. Whether
  the real collaborator raises a 404 first is not part of this model.
- `get_cohort`, `get_group_info_for_cohort` and `get_masquerading_group_info`
  are inputs: the cohort (with its mapping) and the masquerade pair. The
  cohort lookup's possible side effect is recorded only as the
  `cohortLookedUp` flag. The two `log.warn` calls are the `warnings` list.
- `UserPartition.get_group` is not part of this model. It is modelled as the
  first group with the requested id, with none for the "no such group" error.
- `courses.get_course_by_id` in `get_cohorted_user_partition` is replaced by
  its result: the course's declared partitions.
- A node's `has_children` flag is not tied to its `get_children()` list: the
  model admits a node that claims no children yet has some, as a
  descriptor object could. The children walk then yields none and the
  expansion lists them all, as the code does.
- ExpandedAtDepthZero: says that no `children` key appears only when the
  caller did not ask for an `include_fields` name `children`, because such a
  request adds that key at depth 0. ExpandedHeight assumes the same.
- The browser code (`lms/static/js/edxnotes/views/shim.js`,
  `common/static/js/spec/tooltip_manager_spec.js`,
  `lms/static/js/student_account/views/RegisterView.js`) is DOM and UI
  wiring and is outside this model.
