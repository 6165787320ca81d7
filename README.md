# djchat server endpoints — a Dafny model

This project models the request-handling core of the djchat backend's
`server` application:

- the **server list endpoint** (`ServerListViewSet.list`), which reads the
  query parameters `category`, `by_serverid`, `by_user`, `qty` and
  `with_num_members`, refuses user- or id-scoped queries from anonymous
  callers, narrows its queryset step by step (category name, caller
  membership, member-count annotation, truncation, id lookup) and serializes
  what is left;
- the **server serializer**, which maps a server to its fields without the
  member set, with nested channel mappings and with a `num_members` slot
  kept only when the serializer context asks for it;
- the **icon upload validators**: a 70×70 pixel limit and an extension
  allow-list (`.jpg`, `.jpeg`, `.gif`, `.png`) applied to the extension
  `os.path.splitext` reports.

Files:

- `options.dfy`: `Option`.
- `sequences.dfy`: order-preserving `Filter` and `Map` on sequences and the
  subsequence relation, with reflexivity, transitivity, length and
  membership lemmas, and the laws that combine two filters or a filter
  and a map.
- `records.dfy`: `Category`, `Channel`, `Server` and `Row` (a server plus the
  optional `num_members` annotation a queryset row may carry).
- `intparse.dfy`: Python's `int()` on text, used for `qty` and for the ORM's
  conversion of `by_serverid`.
- `validators.dfy`: both validators, `str.rfind` and POSIX `splitext`.
- `serializer.dfy`: the representation of channels and servers and
  `to_representation` as a method that builds the mapping and then removes
  `num_members` in place.
- `views.dfy`: the query record, each pipeline step, the specification
  function `ListServers`, and the class `ServerListViewSet` whose field
  `queryset` the method `List` reassigns step by step, as the source does
  with `self.queryset`.
- `views_properties.dfy`: the properties of the list endpoint.

The request is reduced to its query parameters (`map<string, string>`, the
value `get` returns for each key) and the caller (`Anonymous` or
`Authenticated(id)`). The outcome is an error (`AuthenticationFailed`,
`ServerNotFound`, `ServerValueError`) or the final rows with the
`with_num_members` flag; the response is the error or the serialized rows.

The model follows the code in these points: `by_user` and
`with_num_members` count as set only when they are exactly the text
`"true"`; `category`, `qty` and `by_serverid` act only when non-empty (so
`qty=0` truncates to nothing); and the serializer keeps `num_members`, with
value null, when the context flag is set even for a row without an
annotation.

## Model

| member | source | states |
|---|---|---|
| `Views.ReadQuery` | djchat/server/views.py:74-78 | `by_user` and `with_num_members` are true exactly when the parameter is the text "true"; the other three parameters are read as given |
| `Views.ListServers` | djchat/server/views.py:73-109 | the outcome of `list`: the authentication error, the id-lookup errors, or the narrowed rows with the `with_num_members` flag; its properties are the `ViewsProperties` lemmas below (`AuthenticationGate`, `CategoryMatches`, `CallerIsMember`, `EligibleServersReturned`, `QtyTakesPrefix`, `ServerIdLookup`, `MemberCountAnnotation`) |
| `Views.ByCategory` | djchat/server/views.py:85-86 | `filter(category__name=…)`; `CategoryMatches` and `NarrowedServers` state that it keeps exactly the servers of that category name, in order |
| `Views.ByMember` | djchat/server/views.py:89-91 | `filter(member=user)`; `CallerIsMember` and `NarrowedServers` state that it keeps exactly the servers the caller belongs to, in order |
| `Views.Truncate` | djchat/server/views.py:97-99 | the slice `[:n]`; `QtyTakesPrefix` and `QtyBoundsResult` state that it keeps the first min(n, k) rows and no more than n |
| `Views.ById` | djchat/server/views.py:101-104 | `filter(id=…)`; `ByIdKeeps`, `ByIdEmpty` and `ServerIdLookup` state that it keeps exactly the rows with that id, empty exactly when none carries it |
| `Views.MemberCount` | djchat/server/views.py:95 | `Count("member")` for one server, over the joined member rows; stated through `AnnotatedRowsCarryCount` and `MemberCountAnnotation` (the full count, or 1 under `by_user`) |
| `Views.Annotate` | djchat/server/views.py:93-95 | annotating keeps the records in order and gives each row the member count of its server |
| `Views.ServerListViewSet.constructor` | djchat/server/views.py:11 | a view set starts from every server, unannotated |
| `Views.ServerListViewSet.Narrow` | djchat/server/views.py:84-99 | the category, membership, annotation and truncation steps leave `queryset` equal to `Narrowed` of the old queryset |
| `Views.ServerListViewSet.List` | djchat/server/views.py:15-113 | the response is the rendering of `ListServers` on the old queryset; `queryset` is unchanged after the authentication error, is the narrowed set after the value error, is empty after "not found", and is the returned rows on success |
| `Views.Render` | djchat/server/views.py:111-113 | an error outcome gives that error; a successful one gives one serializer representation per row, in order, under the context `{"with_num_members": flag}` |
| `ViewsProperties.AuthenticationGate` | djchat/server/views.py:80-82 | the authentication error occurs if and only if `by_user` is set or `by_serverid` is non-empty while the caller is anonymous |
| `ViewsProperties.GateBeforeQtyConversion` | djchat/server/views.py:80-99 | the gate runs before `qty` is converted: an anonymous `by_user=true` query with `qty=abc`, which `int()` rejects, gets the authentication error |
| `ViewsProperties.BooleanParamNeedsExactTrue` | djchat/server/views.py:76-78 | a `by_user` or `with_num_members` value other than "true" reads exactly as the missing parameter, and the flag is false |
| `ViewsProperties.FalsyCategoryIgnored` | djchat/server/views.py:85-86 | a missing or empty `category` gives the same outcome as no category |
| `ViewsProperties.CategoryMatches` | djchat/server/views.py:85-86 | with a non-empty `category`, every returned server's category name equals it |
| `ViewsProperties.CallerIsMember` | djchat/server/views.py:89-91 | with `by_user`, the caller is authenticated and a member of every returned server |
| `ViewsProperties.OutcomeServersEligible` | djchat/server/views.py:84-104 | every returned server passed the category and membership steps, and the returned servers form a subsequence of the starting queryset |
| `ViewsProperties.NarrowedServers` | djchat/server/views.py:84-95 | without `qty`, the queryset the id lookup sees holds exactly the servers that pass the category and membership steps, in queryset order |
| `ViewsProperties.EligibleServersReturned` | djchat/server/views.py:84-113 | without `qty` and `by_serverid`, an admitted query returns exactly the servers that pass the category and membership steps, in queryset order (both directions of the narrowing) |
| `ViewsProperties.ByIdKeeps` | djchat/server/views.py:104 | the id filter keeps every row whose server carries the id |
| `ViewsProperties.EligibleServerFound` | djchat/server/views.py:84-107 | without `qty`, a `by_serverid` lookup of an existing server that passes the category and membership steps succeeds and returns it |
| `ViewsProperties.ResultIsSubsequence` | djchat/server/views.py:84-104 | a successful result neither adds nor reorders records: its servers are a subsequence of the starting queryset's |
| `ViewsProperties.FreshResultIsSubsequence` | djchat/server/views.py:11-104 | on a fresh view set the returned servers are a subsequence of all servers |
| `ViewsProperties.QtyTakesPrefix` | djchat/server/views.py:97-99 | without an id lookup, `qty` = N yields the first min(N, k) of the k rows left by the earlier steps |
| `ViewsProperties.QtyBoundsResult` | djchat/server/views.py:97-104 | with `qty` = N no successful result has more than N rows (with `by_serverid` too, under the slice-then-filter assumption) |
| `ViewsProperties.QtyZeroSelectsNothing` | djchat/server/views.py:98-99 | `qty` = "0" yields an empty result, or an id-lookup error when `by_serverid` is given (that case under the slice-then-filter assumption) |
| `ViewsProperties.ParseZero` | djchat/server/views.py:98-99 | `int("0")` is 0 |
| `ViewsProperties.ByIdEmpty` | djchat/server/views.py:104-107 | the id filter is empty exactly when no row carries that id |
| `ViewsProperties.OverlongQtyIsNotNatural` | djchat/server/views.py:97-99 | a `qty` of more than 4300 digits is outside what `int()` converts, so it is not a natural `qty` |
| `ViewsProperties.OverlongIdIsValueError` | djchat/server/views.py:101-109 | a `by_serverid` of more than 4300 digits gives the value error, not "not found" |
| `ViewsProperties.ServerIdLookup` | djchat/server/views.py:101-109 | text `int()` rejects gives the value error; a parsed id no narrowed row carries gives "not found" (if and only if); otherwise the result is exactly the narrowed rows with that id, non-empty (with `qty` as well, under the slice-then-filter assumption) |
| `ViewsProperties.ExcludedServerNotFound` | djchat/server/views.py:84-107 | a server that exists but is excluded by the category or membership step is reported as not found (with `qty` as well, under the slice-then-filter assumption) |
| `ViewsProperties.AnnotatedRowsCarryCount` | djchat/server/views.py:93-95 | with `with_num_members` the query was admitted and every returned row carries the count of its server's members (joined with the caller under `by_user`) |
| `ViewsProperties.MemberCountAnnotation` | djchat/server/views.py:93-95 | with `with_num_members` every returned row carries its member count (1 under `by_user`); without it the returned rows are a subsequence of the starting rows, annotations untouched |
| `ViewsProperties.ResponseShape` | djchat/server/views.py:111-113 | a data response holds one mapping per returned row, none with a `member` key, each with `num_members` exactly when `with_num_members` is "true" |
| `Serializer.ChannelRepresentation` | djchat/server/serializer.py:5-9 | a channel maps to exactly its fields `id`, `name` and `server`, the relation by id |
| `Serializer.ChannelList` | djchat/server/serializer.py:13 | one nested channel mapping per channel, in the server's channel order |
| `Serializer.GetNumMembers` | djchat/server/serializer.py:20-23 | the annotation's value when the row carries one, null exactly when it does not |
| `Serializer.BaseRepresentation` | djchat/server/serializer.py:12-26 | the model serializer's mapping before adjustment; its keys and values are stated by `RepresentationFields` (every field but `member`, channels nested, `num_members` from `GetNumMembers`) |
| `Serializer.Representation` | djchat/server/serializer.py:25-31 | what `to_representation` returns; its properties are stated by `RepresentationFields` |
| `Serializer.RepresentationFields` | djchat/server/serializer.py:12-31 | no `member` key; `num_members` present exactly when the context flag is truthy, then equal to the annotation or null without one; keys are the server fields less `num_members` when the flag is falsy; every other key keeps the base value; `channel_server` lists one mapping per channel in order |
| `Serializer.ToRepresentation` | djchat/server/serializer.py:25-31 | building the base mapping and removing `num_members` when the flag is falsy yields `Representation`, whose fields `RepresentationFields` states |
| `Serializer.SerializeAll` | djchat/server/views.py:112 | `many=True`: one representation per row, position by position |
| `Validators.ValidateIconImageSize` | djchat/server/validators.py:6-12 | an absent image passes; a present one passes exactly when width and height are both at most 70, else fails with its dimensions |
| `Validators.SmallerIconStaysAccepted` | djchat/server/validators.py:9 | shrinking an accepted icon keeps it accepted |
| `Validators.IconSizeBoundary` | djchat/server/validators.py:7-12 | 70×70, 1×70 and 70×1 pass; 71×1 and 1×71 fail; no image passes |
| `Validators.LastIndex` | djchat/server/validators.py:16 | `rfind`: the position of the last occurrence, -1 when there is none |
| `Validators.SplitExt` | djchat/server/validators.py:16 | root and extension concatenate to the path; the extension is empty or a dot followed by neither dots nor slashes; a non-empty extension follows a stem |
| `Validators.SplitAtDot` | djchat/server/validators.py:16 | when the last dot lies after the last slash and the text between them is not all dots, the split there yields a well-shaped extension after a stem |
| `Validators.LastIndexAppend` | djchat/server/validators.py:16 | appending text without the searched character leaves `rfind`'s answer unchanged |
| `Validators.LastIndexOfStemAndExtension` | djchat/server/validators.py:16 | in a root followed by a simple extension, the last slash is the root's last slash and the last dot is the extension's dot |
| `Validators.SplitExtOfStem` | djchat/server/validators.py:16 | a root with a stem followed by a dot and a dot-free, slash-free suffix splits back into exactly those parts |
| `Validators.ValidateImageFileExtension` | djchat/server/validators.py:15-20 | passes exactly when the `splitext` extension is in the allow-list, else fails naming that extension |
| `Validators.AllowedExtensionShape` | djchat/server/validators.py:17 | every allowed extension is a dot followed by lower-case letters |
| `Validators.AcceptedNameHasForm` | djchat/server/validators.py:16-20 | an accepted name ends in an allowed extension preceded by a stem |
| `Validators.FormIsAccepted` | djchat/server/validators.py:16-20 | a name made of a stem and an allowed extension is accepted |
| `Validators.ExtensionCheckAcceptsExactly` | djchat/server/validators.py:15-20 | accepted if and only if the name is a stem followed by one of `.jpg`, `.jpeg`, `.gif`, `.png` |
| `Validators.NoDotRejected` | djchat/server/validators.py:16-20 | a name whose final component has no dot has the empty extension and is rejected |
| `Validators.PlainNameVerdict` | djchat/server/validators.py:16-20 | for a slash-free name not starting with a dot, followed by one dot-led word, the verdict depends on that extension alone: pass exactly when it is allowed, else fail naming it |
| `Validators.InnerSuffixIgnored` | djchat/server/validators.py:16-20 | for every such stem, `<stem>.tar.png` is accepted |
| `Validators.LastSuffixCounts` | djchat/server/validators.py:16-20 | for every such stem, `<stem>.png.exe` is rejected naming `.exe` |
| `Validators.LowerCaseAccepted` | djchat/server/validators.py:17-19 | for every such stem, `<stem>.png` is accepted |
| `Validators.CapitalExtensionRejected` | djchat/server/validators.py:17-19 | the comparison is case-sensitive: a stem followed by any extension with a capital letter after its dot is rejected, naming that extension |
| `Validators.UpperCaseRejected` | djchat/server/validators.py:17-19 | `<stem>` followed by `.JPG`, `.JPEG`, `.GIF` or `.PNG` is rejected, naming that extension |
| `Validators.LeadingDotIsNoExtension` | djchat/server/validators.py:16-20 | a name that is one leading dot and a word without dots or slashes has no extension and is rejected |
| `Validators.DotFileRejected` | djchat/server/validators.py:16-20 | the hidden file `.png` is rejected, with the empty extension |
| `IntParsing.ParseInt` | djchat/server/views.py:99-104 | `int()` on text, used for `qty` and for the id lookup; its contract is stated by `ParseDecimal` (every decimal spelling of at most 4300 digits, bare or signed, converts to its number), `OverlongDigitsRejected` (a longer digit run fails) and `ParseRejectsForeignCharacter` (a foreign character makes it fail) |
| `IntParsing.DecimalString` | djchat/server/views.py:99 | the decimal spelling of a number is a digit string without leading zeros that reads back as that number |
| `IntParsing.ParseDecimal` | djchat/server/views.py:99-104 | `int()` of a decimal spelling of at most 4300 digits, bare or signed, gives the number |
| `IntParsing.OverlongDigitsRejected` | djchat/server/views.py:99-104 | a digit run longer than 4300 digits, bare or signed, does not convert |
| `IntParsing.ParseRejectsForeignCharacter` | djchat/server/views.py:104-109 | text with a character that is no digit, sign or whitespace does not convert (the value-error path) |

## Left out

- `djchat/server/schema.py` (OpenAPI documentation metadata) and
  `reactchat/src/theme/theme.tsx` (UI theme constants): no behaviour to verify.
- The database and the ORM's query compilation: a queryset is a sequence of
  rows and each ORM call is the sequence operation it denotes. The
  `models.py` file is not part of this model, so `Server` and `Channel` hold
  only the fields the endpoint and the serializers use; category names
  compare exactly (no database collation).
- Views.ListServers: requires that a non-empty `qty` convert to a
  non-negative integer once the query passes the authentication gate,
  because for any other value the source then raises an exception it does
  not catch (from `int()`, which also refuses a run of more than 4300
  digits, or from the ORM's refusal of a negative slice).
  A query the gate refuses gets the authentication error whatever its
  `qty`.
- Views.ListServers: treats the id filter after a truncation as a filter on
  the truncated list; this is an assumption, since the ORM refuses to filter
  a sliced queryset, so `qty` together with `by_serverid` fails with an
  uncaught error in the running system.
- Views.MemberCount: under `by_user` the member count covers only the member
  rows joined by the membership filter (`members * {caller}`, hence 1); this
  follows the ORM's documented behaviour for an annotation after a filter on
  the same relation and is an assumption of the model.
- IntParsing.ParseInt: models `int()` for ASCII digits, one sign and ASCII
  whitespace only, with CPython's default limit of 4300 digits
  (`MaxStrDigits`); digit-group underscores, non-ASCII digits or
  whitespace, and a limit changed at run time are not modelled.
- Validators.SplitExt: models the POSIX path rules only (the Windows rules
  with `\` and drive letters are not modelled).
- Image decoding: the icon is given as its pixel dimensions; an unreadable
  file and its exception are not modelled. An empty file field is `None`.
- Serializer.RepresentationFields: a mapping has no key order, so the field order
  of the serializer's ordered output is not modelled; the icon appears as its
  stored name, not as the URL the image field would build.
- Truthiness of the serializer context is modelled for boolean values only,
  which is what the list endpoint passes.
- Error messages and the mapping of errors to HTTP statuses. The list
  endpoint's errors are distinct constructors only. `ImageTooLarge` carries
  the dimensions that the source's message reports.
- Validators.ValidateImageFileExtension: the failure records the `splitext`
  extension so that the lemmas can state which extension was refused. The
  source's message, "Unsupported file extension.", is fixed text that names
  no extension.
- Views.ServerListViewSet.constructor: each request is modelled against one
  fixed list of servers, given to a fresh view set. In the source,
  `queryset` is a single class-level queryset shared by all view instances.
  A request to which no step applies serializes that shared object
  directly, so its result cache fills on the first such evaluation. Later
  such requests, and `qty`-only requests that slice it, keep seeing those
  rows after servers are added or deleted. The model does not capture this
  caching across requests; `FreshResultIsSubsequence` holds relative to the
  list the view set starts from.
- `Views.ServerListViewSet.Narrow` is the part of `list` between the
  authentication gate and the id lookup, split out as its own method; the
  source has it inline.
