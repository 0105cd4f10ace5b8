# website-payload core, modelled in Dafny

This project models the pieces of the HCE Studio website (a Payload CMS and
Next.js site) that carry real logic, and proves what they promise:

- **Whitepaper table of contents** (`extractHeadings.ts`).
  - `slugify` turns heading text into an anchor id.
  - `extractTextFromNode` flattens a rich-text node tree into its text.
  - `extractHeadings` groups the top-level `h2`/`h3` headings into a two-level outline.
  - Modules: `Slug` and `Headings`.
  - The loop of `extractHeadings` is a method proved equal to a declarative outline function. The properties of the outline are lemmas about that function.
- **Orbital network diagram** (`OrbitalNetwork.tsx`), module `OrbitalNetwork`.
  - The generated dots: ids, counts and orbit numbers.
  - The Fisher–Yates `shuffleArray`: a loop over a fresh array.
  - Connection-target selection.
  - The component's hover state, as the class `Network`. Its handlers overwrite the hovered id, the paused flag and the connection list.
  - `Math.random()` is an oracle: a sequence `draws` of reals in [0, 1), consumed in call order. The first draw gives the target count and the rest feed the shuffle.
- **Project-links migration** (`20251218_133902.ts`), module `LinkMigration`.
  - Each row's three link columns become ordered `(order, label, url)` rows.
  - The class `Database` holds the parent tables and the link tables that `up` and `down` change.
- **Small decision rules**, one module each:
  - the select-option domains and defaults of the Projects collection (`ProjectsCollection`);
  - the label lookups (`ProjectLabels`);
  - the `publishedAt` auto-fill hook, shared by the Projects and Network collections (`PublishedAt`);
  - the OpenGraph default merge (`OpenGraph`);
  - the revalidation hooks (`RevalidateProject`);
  - the whitepaper link-field customisation (`WhitepaperLexical`).
- **Shared support modules**:
  - `Js`: JavaScript values, truthiness, property access, template interpolation;
  - `Decimal`: natural numbers written in decimal, as `${i}` does;
  - `Optional`.

## Model

| member | source | states |
|---|---|---|
| Slug.SlugifyIsSlug | src/utilities/extractHeadings.ts:13-20 | a slug uses only `a-z`, `0-9` and `-`, never starts or ends with `-`, and never contains `--` |
| Slug.SlugifyIdempotent | src/utilities/extractHeadings.ts:13-20 | slugifying a slug again gives the same slug |
| Slug.SlugifyFixesSlugs | src/utilities/extractHeadings.ts:13-20 | every well-formed slug is its own slug |
| Slug.SlugifyKeepsAlnums | src/utilities/extractHeadings.ts:14-19 | the letters and digits of the slug are exactly those of the lowercased text, in order; nothing alphanumeric is lost or invented |
| Slug.ToLowerNoUpper | src/utilities/extractHeadings.ts:15 | after `toLowerCase` no ASCII capital is left |
| Slug.TrimStartIsSuffix | src/utilities/extractHeadings.ts:16 | trimming the start removes a prefix, and the rest does not start with JavaScript whitespace |
| Slug.TrimEndIsPrefix | src/utilities/extractHeadings.ts:16 | trimming the end removes a suffix, and the rest does not end with JavaScript whitespace |
| Slug.RemoveNonWordOfLowered | src/utilities/extractHeadings.ts:17 | once the text is lowercased, removing non-word characters leaves only `a-z`, `0-9`, `_`, `-` and whitespace |
| Slug.CollapseSeparators | src/utilities/extractHeadings.ts:18 | after replacing runs of whitespace, `_` and `-` by one hyphen, no `--` is left, and a run that continues from before emits no second hyphen |
| Headings.ExtractTextSplits | src/utilities/extractHeadings.ts:25-35 | a non-text node's text is its children's texts joined in order: splitting the children splits the text |
| Headings.H3Run | src/utilities/extractHeadings.ts:63-69 | the `h3` entries attached to an `h2` have level 3 and no children of their own |
| Headings.Outline | src/utilities/extractHeadings.ts:49-70 | every top-level entry has level 2 and a list of children, each a level-3 leaf: the outline is at most two deep |
| Headings.OutlineSections | src/utilities/extractHeadings.ts:49-62 | there is one entry per `h2` node, in document order; entry k is built from the k-th `h2` node, with level 2, that node's text and the slug of that text as id |
| Headings.OutlineSnoc | src/utilities/extractHeadings.ts:49-70 | a following `h2` adds an entry with no children; a following `h3` is appended to the last `h2` entry, or dropped when there is none yet; any other node changes nothing |
| Headings.OutlineEmptyIff | src/utilities/extractHeadings.ts:49-62 | the outline is empty exactly when there is no `h2` node |
| Headings.LeadingNodesIgnored | src/utilities/extractHeadings.ts:63 | nodes before the first `h2`, `h3` nodes included, contribute nothing |
| Headings.OtherNodeIgnored | src/utilities/extractHeadings.ts:49-63 | a node that is neither an `h2` nor an `h3` heading contributes nothing: paragraphs, `h4` headings and any headings nested inside such a node |
| Headings.ExtractHeadings | src/utilities/extractHeadings.ts:41-75 | the loop builds exactly the outline of the root's direct children; a missing state, root or children list gives no headings |
| Decimal.ParseNatToString | src/components/OrbitalNetwork/OrbitalNetwork.tsx:37 | reading back the decimal digits `${i}` writes gives `i` again |
| Decimal.NatToStringInjective | src/components/OrbitalNetwork/OrbitalNetwork.tsx:37 | distinct numbers are written differently |
| OrbitalNetwork.DotIdInjective | src/components/OrbitalNetwork/OrbitalNetwork.tsx:37 | two ids `orbit-<o>-dot-<i>` are equal exactly when their orbits and positions are |
| OrbitalNetwork.CalculateDotPositions | src/components/OrbitalNetwork/OrbitalNetwork.tsx:29-46 | the loop yields `dotCount` dots in order, dot i having id `orbit-<orbitIndex>-dot-<i>` and the given orbit index |
| OrbitalNetwork.AllDotsCount | src/components/OrbitalNetwork/OrbitalNetwork.tsx:10-15 | the four orbits give 4 + 7 + 11 + 15 = 37 dots |
| OrbitalNetwork.AllDotsMembers | src/components/OrbitalNetwork/OrbitalNetwork.tsx:65-67 | `allDots` holds exactly the dots `orbit-<o>-dot-<i>` on orbit o for each orbit and each position below its dot count, and no id occurs twice |
| OrbitalNetwork.RandomIndex | src/components/OrbitalNetwork/OrbitalNetwork.tsx:23 | `Math.floor(r * (i + 1))` is an index in `0..i` |
| OrbitalNetwork.ShuffledPermutes | src/components/OrbitalNetwork/OrbitalNetwork.tsx:20-27 | whatever the random draws, the shuffle returns a permutation of its input: same length, same multiset |
| OrbitalNetwork.ShuffleArray | src/components/OrbitalNetwork/OrbitalNetwork.tsx:20-27 | the swap loop over a copy computes the Fisher–Yates order the draws determine, a permutation of the input; the input itself is a value and is not changed |
| OrbitalNetwork.Eligible | src/components/OrbitalNetwork/OrbitalNetwork.tsx:50-52 | the eligible dots are exactly the dots off the hovered dot's orbit and with another id; distinct ids stay distinct |
| OrbitalNetwork.TargetCount | src/components/OrbitalNetwork/OrbitalNetwork.tsx:55 | the drawn count lies in 2..4 |
| OrbitalNetwork.TargetsSound | src/components/OrbitalNetwork/OrbitalNetwork.tsx:48-57 | no target is on the hovered dot's orbit or is the hovered dot; every target is one of the dots; there are `min(count, eligible)` targets; distinct input ids give distinct targets |
| OrbitalNetwork.SelectConnectionTargets | src/components/OrbitalNetwork/OrbitalNetwork.tsx:48-57 | filter, count draw, shuffle and slice give the targets, with all the properties above |
| OrbitalNetwork.Network.constructor | src/components/OrbitalNetwork/OrbitalNetwork.tsx:60-67 | the initial state has nothing hovered, no connections, not paused, and all 37 dots |
| OrbitalNetwork.Network.HandleDotEnter | src/components/OrbitalNetwork/OrbitalNetwork.tsx:69-83 | after entering dot d, the hovered id is d's, the diagram is paused, and the connections are one per selected target, in order, each from d to that target; the targets are off d's orbit, not d, pairwise distinct, `min(count, eligible)` of them |
| OrbitalNetwork.Network.HandleDotLeave | src/components/OrbitalNetwork/OrbitalNetwork.tsx:85-89 | leaving resets to nothing hovered, not paused, no connections, whatever the prior state |
| OrbitalNetwork.Network.HandleDotFocus | src/components/OrbitalNetwork/OrbitalNetwork.tsx:91-96 | focusing has the effect of entering |
| OrbitalNetwork.Network.HandleDotBlur | src/components/OrbitalNetwork/OrbitalNetwork.tsx:98-100 | blurring has the effect of leaving |
| LinkMigration.LinksOfContiguous | src/migrations/20251218_133902.ts:33-59 | a parent gets one row per present column, a column being present exactly when it is neither NULL nor `''` (the CASE terms at line 41); the orders are exactly 0..n-1 in the sequence website, case study, repository; each present column yields its row, with the parent id, the kind's label and the url; no row has an empty url |
| LinkMigration.MigrateLinksOfParent | src/migrations/20251218_133902.ts:31-59 | with unique parent ids, the rows the three INSERTs write for a parent are exactly that parent's ordered link rows |
| LinkMigration.InsertSelectRows | src/migrations/20251218_133902.ts:33-59 | every inserted row has a non-empty url, its statement's label and an existing parent |
| LinkMigration.UpDownLosesLinks | src/migrations/20251218_133902.ts:90-110 | dropping the link columns (lines 90-97) and re-adding them empty (lines 104-109) restores a table exactly when all its link columns were NULL: it is not a data round trip |
| LinkMigration.Database.Up | src/migrations/20251218_133902.ts:3-98 | `up` fills both link tables by the same rule, the version table from the `version_links_*` columns, and drops the columns |
| LinkMigration.Database.Down | src/migrations/20251218_133902.ts:100-110 | run on the post-`up` schema, `down` drops both link tables and re-adds the columns empty, returning to the pre-`up` schema |
| ProjectsCollection.ProjectTypeValue | src/collections/Projects/index.ts:76-85 | each project type is stored as one of the `projectType` option values |
| ProjectsCollection.ProjectStatusValue | src/collections/Projects/index.ts:95-112 | each status is stored as one of the `projectStatus` option values |
| ProjectsCollection.ParseProjectType | src/collections/Projects/index.ts:76-85 | a stored value is a project type exactly when it is one of the options |
| ProjectsCollection.ParseProjectStatus | src/collections/Projects/index.ts:95-112 | a stored value is a status exactly when it is one of the options |
| ProjectsCollection.ProjectTypeRoundTrip | src/collections/Projects/index.ts:76-85 | a type's value reads back as that type, and only that value does |
| ProjectsCollection.ProjectStatusRoundTrip | src/collections/Projects/index.ts:95-112 | a status's value reads back as that status, and only that value does |
| ProjectsCollection.ResolveProjectType | src/collections/Projects/index.ts:71-85 | the required field defaults to `agency`; a given value is accepted exactly when it is an option |
| ProjectsCollection.ResolveProjectStatus | src/collections/Projects/index.ts:90-112 | the required field defaults to `active`; a given value is accepted exactly when it is an option |
| ProjectsCollection.OptionsAreTheDomains | src/collections/Projects/index.ts:76-112 | every option value names a type or status, and no value is listed twice |
| ProjectLabels.GetProjectTypeLabel | src/utilities/projectLabels.ts:3-9 | the label of a type is the label of its option in the collection: `Venture Studio`, `Agency Work` |
| ProjectLabels.GetProjectStatusLabel | src/utilities/projectLabels.ts:11-19 | the label of a status is the label of its option in the collection, such as `In Development` and `Proof of Concept` |
| ProjectLabels.ProjectTypeLabelInjective | src/utilities/projectLabels.ts:4-7 | distinct types have distinct labels |
| ProjectLabels.ProjectStatusLabelInjective | src/utilities/projectLabels.ts:12-17 | distinct statuses have distinct labels |
| PublishedAt.FillPublishedAt | src/collections/Projects/index.ts:234-239 | a published document without a date gets the current date; a set date, or an unpublished document, keeps its value; a published document always ends with a date |
| PublishedAt.NeverClears | src/collections/Network/index.ts:111-116 | a set date is returned unchanged, and an unpublished document's unset date stays unset |
| PublishedAt.FillIdempotent | src/collections/Network/index.ts:111-116 | running the hook twice gives the result of running it once, whatever the clock reads the second time |
| OpenGraph.MergeOpenGraph | src/utilities/mergeOpenGraph.ts:16-22 | the result has the keys of the defaults and of `og`; every key of `og` except `images` overrides its default; other defaults stay; `images` comes from `og` exactly when it is truthy there |
| OpenGraph.MergeNothing | src/utilities/mergeOpenGraph.ts:16-22 | with no argument the result is exactly the defaults |
| OpenGraph.MergeHasImages | src/utilities/mergeOpenGraph.ts:4-22 | the result always has truthy images, a `type` and a `siteName`; `type` is `website` unless `og` sets it |
| OpenGraph.MergeIdempotent | src/utilities/mergeOpenGraph.ts:16-22 | merging a merged record again changes nothing |
| RevalidateProject.RevalidateOnChange | src/collections/Projects/hooks/revalidateProject.ts:7-34 | the document is returned unchanged; revalidation of `/projects/<slug>` and the collection tag happens at most once, and exactly when not disabled and the document is published or was published before |
| RevalidateProject.DeleteActsLikePublish | src/collections/Projects/hooks/revalidateProject.ts:36-50 | a delete returns the document unchanged and makes the same calls as saving that document as published in the same context, whatever the previous version; it is quiet exactly when disabled |
| RevalidateProject.DeleteWithoutDoc | src/collections/Projects/hooks/revalidateProject.ts:36-50 | a delete with no document, when not disabled, still revalidates `/projects/undefined` and the collection tag |
| RevalidateProject.DraftIsQuiet | src/collections/Projects/hooks/revalidateProject.ts:13-23 | a document neither published now nor before triggers nothing |
| WhitepaperLexical.WithoutUrl | src/fields/whitepaperLexical.ts:36-39 | the filter keeps exactly the fields not named `url` |
| WhitepaperLexical.WithoutUrlConcat | src/fields/whitepaperLexical.ts:36-39 | filtering the fields distributes over concatenation, so the kept fields stay in their order |
| WhitepaperLexical.WithoutUrlHasNoUrl | src/fields/whitepaperLexical.ts:36-39 | no `url` field survives the filter |
| WhitepaperLexical.WithoutUrlKeepsOthers | src/fields/whitepaperLexical.ts:36-39 | a field list with no `url` field passes the filter unchanged |
| WhitepaperLexical.LinkFieldsShape | src/fields/whitepaperLexical.ts:36-58 | the link drawer has exactly one `url` field, last; every other default field is kept |
| WhitepaperLexical.LinkFieldsIdempotent | src/fields/whitepaperLexical.ts:36-58 | applying the customisation to its own output changes nothing, so non-url fields keep their order |
| WhitepaperLexical.ValidateFollowsCondition | src/fields/whitepaperLexical.ts:47-56 | the field is shown exactly when the link type is not `internal`; a hidden `url` field never blocks saving; a shown one is valid exactly when it has a value; the only error is `URL is required` |

## Left out

- Dot geometry is not modelled: the `x`, `y` and `angle` of each dot (floating point, `Math.cos`, `Math.sin`, `Math.PI`) and the SVG markup. A `Dot` carries only its id and orbit index.
- `Math.random()` is a parameter. The handlers and the selection require the oracle to supply enough draws in [0, 1): one for the count and one per shuffle step.
- React scheduling is not modelled. The three state setters of a handler are treated as one update of the `Network` object.
- The `ConnectionSet` type of the diagram's type file is not used by the component and is not modelled.
- Generated keys in the migration are not modelled: the `gen_random_uuid()` ids of `projects_links`, the `serial` ids and the `_uuid` column of the version links.
- The migration's DDL is not modelled: foreign keys, indexes and `CASCADE`.
- LinkMigration.MigrateLinksOfParent: SQL tables are unordered, but the link tables here are sequences in INSERT order. The row position carries no meaning; the `_order` column carries the order. The sequence equality the lemma states implies equality of the rows as a multiset, which is all the source guarantees.
- LinkMigration.Database.Up requires the pre-migration schema instead of modelling the SQL error when a table already exists or a column is missing.
- Slug.LowerChar maps only ASCII capitals, U+0130 and U+212A, the only characters whose lowercase contains ASCII letters. Non-ASCII whitespace (U+00A0, U+2000 to U+200A, U+3000, U+FEFF and the rest of `\s`) has no case, so it is kept as it is; it survives the third step and becomes a hyphen, as in the source. Every other non-ASCII character, and its real lower-case form alike, is removed by the third step, so the slug does not depend on its case.
- Strings are sequences of Unicode scalar values, while JavaScript strings are UTF-16 units. A character outside the Basic Multilingual Plane is one character here and two units there. The slug removes it either way.
- `Js.Value` numbers are integers. No fractional number, `NaN` or `-0` reaches the modelled code.
- The revalidation hooks return the framework calls they make: `payload.logger.info`, `revalidatePath` and `revalidateTag`. What those calls do is not modelled.
- `getServerSideURL()` in the OpenGraph defaults is a parameter, `serverUrl`.
- Only the keys and values of the OpenGraph metadata are modelled, not its TypeScript type.
- Only the `url` field of the link drawer is modelled, through its name, type, condition and validation. The editor's features, the enabled collections and the translated field label are configuration and are not modelled.
- ProjectsCollection.ResolveProjectType states how Payload applies a required select with a default. The framework's own create/update distinction is not modelled.
- ProjectsCollection.ResolveProjectStatus: the same limitation as `ResolveProjectType`.
- The other fields, access rules and admin settings of the Projects and Network collections are not modelled.
