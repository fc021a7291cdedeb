# portfolio-power: a Dafny model of the portfolio's display and form rules

portfolio-power is a portfolio web site with a small admin area. Visitors see
the public projects as cards in one of three grids, which they can filter by
category. A project page shows a screenshot gallery. The admin lists every
project, shows three counters, deletes projects, and creates or edits them
through a sectioned form.

This project models the rules that decide what is shown and what is stored:

- **The form.** A stored project becomes editable strings. On submit the
  strings are parsed back: the tech stack is split on `,` and trimmed, the
  features are split into lines and blank lines dropped, and empty links are
  left out. The submitting flag and the create/update choice are modelled too
  (`ProjectForm`).
- **The grids.** The category buttons are `all` plus each category once, in
  first-occurrence order. The filter is the identity for `all` and otherwise
  the matching subsequence. Each grid shows the empty-category message exactly
  when the filter keeps nothing (`Catalog`, `ProjectGrid`,
  `ProjectGridMasonry`, `MasonryGrid`).
- **The interleaved grid.** A loop puts an accent block after every third
  project, cycling through a fixed table of five blocks (`MasonryGrid`).
- **The cards.** Status badge colour and text, the title-initial placeholder,
  tech-stack truncation with an overflow chip, height cycling, and the
  demo/GitHub buttons (`CardParts` plus one module per card).
- **The gallery.** One selected index, moved by wrap-around arrows and set by
  the thumbnails and dots (`ProjectGallery`, a class).
- **The admin list and counters.** Rows and their badges, the `deletingId`
  cell around a delete, and the total/public/private counters plus the status
  counts (`ProjectList` with a class, `StatsCards`).
- **The navigation bar.** The two fixed links and the rule that highlights
  them (`Navigation`).

The JavaScript string operations the components use are modelled in `Text`:
`trim`, one-character `split`, `join`, `replace` with a one-character pattern,
`startsWith`, first-letter capitalisation and decimal rendering. The sequence
operations are in `Seqs`: `filter`, de-duplication through `new Set`, and
subsequence.

Inputs the browser or the server supplies are parameters:

- the current path;
- whether the user accepted the confirmation dialog;
- whether the awaited store or delete call succeeded.

A component's state becomes a class whose methods are its event handlers. Each
async handler is split at its `await` into a `Begin…` method, run before the
call, and a `Finish…` method, run after it.

Status values are modelled as plain strings, a deliberate over-approximation.
The form's Select offers only the four named statuses, but the form casts its
status string to the enumeration without checking it, and `getStatusColor` has
a `default` branch. The model lets any string reach both, so every fact proved
about status holds for the four named values as well.

## Model

| member | source | states |
|---|---|---|
| Text.Trim | src/components/admin/project-form.tsx:53 | `trim` gives a string with no whitespace at either end, made only of characters of the input |
| Text.TrimSlice | src/components/admin/project-form.tsx:53 | what `trim` keeps is one contiguous slice of the input, and what it drops on each side is whitespace |
| Text.TrimFixpoint | src/components/admin/project-form.tsx:53 | `trim` leaves a string unchanged if and only if it has no whitespace at either end |
| Text.TrimBlank | src/components/admin/project-form.tsx:55 | `f.trim()` is empty (falsy) if and only if the line is all whitespace |
| Text.Split | src/components/admin/project-form.tsx:53 | `split` on one character always returns at least one piece, and no piece contains the separator |
| Text.JoinOfSplit | src/components/admin/project-form.tsx:55 | joining the pieces of a split with the separator gives back the original string |
| Text.SplitOfJoin | src/components/admin/project-form.tsx:35 | splitting a join of a non-empty list whose entries are free of the separator gives back the list |
| Text.SplitWithoutSeparator | src/components/admin/project-form.tsx:53 | a string without the separator splits into itself alone |
| Text.SplitAtSeparator | src/components/admin/project-form.tsx:53 | the split ends its first piece at the first separator and continues on the rest |
| Text.Join | src/components/admin/project-form.tsx:33-35 | `join`, specified by its inverse: `Text.JoinOfSplit` and `Text.SplitOfJoin` state that it undoes and is undone by `split` |
| Text.ReplaceFirst | src/components/admin/project-list.tsx:72 | a one-character `replace` changes only the first occurrence, keeps the length, and leaves a string without the character unchanged |
| Text.Capitalize | src/components/portfolio/masonry-grid.tsx:76 | the button caption upper-cases the first character and keeps the length and the rest of the string |
| Text.UpperChar | src/components/portfolio/masonry-grid.tsx:76 | ASCII `toUpperCase` shifts `a`-`z` to `A`-`Z` and leaves every other character unchanged |
| Text.FirstChar | src/components/portfolio/project-card.tsx:40 | `charAt(0)` is the first character, or `""` for an empty string |
| Text.NatToString | src/components/admin/project-list.tsx:98 | a number interpolated into JSX text renders as a non-empty string of decimal digits, with no leading zero unless it is `0` itself, and reads back as the number |
| Text.DecimalRoundTrip | src/components/admin/project-list.tsx:98 | reading the rendered digits back gives the number, so rendering is injective |
| Seqs.Keep | src/components/portfolio/project-grid.tsx:16 | `filter` returns at most as many elements, every one passing the test, every one taken from the input |
| Seqs.KeepIsSubsequence | src/components/portfolio/project-grid.tsx:16 | `filter` keeps an order-preserving subsequence |
| Seqs.KeepCounts | src/components/portfolio/project-grid.tsx:16 | `filter` keeps every copy of an element that passes the test and drops every copy of one that fails |
| Seqs.KeepAll | src/components/admin/project-form.tsx:55 | filtering a list whose elements all pass gives the list itself |
| Seqs.KeepEmpty | src/components/portfolio/project-grid.tsx:39-48 | a filter result is empty if and only if no element passes the test |
| Seqs.IndexOf | src/components/admin/project-list.tsx:72 | the first position of an element that occurs, with no earlier occurrence |
| Seqs.Dedup | src/components/portfolio/project-grid.tsx:14 | `[...new Set(xs)]` holds exactly the elements of `xs` |
| Seqs.DedupDistinct | src/components/portfolio/project-grid.tsx:14 | the de-duplicated list holds each element once |
| Seqs.DedupFirstOccurrenceOrder | src/components/portfolio/project-grid.tsx:14 | the de-duplicated elements come in the order of their first occurrences |
| ProjectForm.OrElse | src/components/admin/project-form.tsx:29-39 | a string defaulted with JavaScript's or-operator: the string unless it is empty, then the fallback |
| ProjectForm.LinkText | src/components/admin/project-form.tsx:36-38 | a link's form text is empty exactly when the link is null or empty |
| ProjectForm.InitialFormData | src/components/admin/project-form.tsx:28-41 | the status is never empty; a new form is in progress and public; an existing project keeps its visibility and its status unless that is empty, copies its title, description, slug, why and category, shows its lists joined, and shows a link as empty exactly when it is not truthy and as itself when it is |
| ProjectForm.RequiredFields | src/components/admin/project-form.tsx:141-300 | the `required` inputs are title, slug, description, category and tech stack on Basic, why and features on Content, none elsewhere |
| ProjectForm.RequiredCheckSeesOnlyTheSection | src/components/admin/project-form.tsx:141-300 | the browser's `required` check never fails on Links or Settings, and an edit to an input the section does not show never changes its outcome |
| ProjectForm.NewProjectMissesRequired | src/components/admin/project-form.tsx:155-160 | the empty new-project form fails the `required` check on its first section |
| ProjectForm.ParseTechStack | src/components/admin/project-form.tsx:53 | the parsed tech stack has at least one entry, and every entry is trimmed and free of commas |
| ProjectForm.ParseFeatures | src/components/admin/project-form.tsx:55 | there are at most as many features as lines, and each is a non-blank line free of newlines; `ProjectForm.FeatureLines` completes this to exactly the non-blank lines, in order |
| ProjectForm.Submission | src/components/admin/project-form.tsx:48-61 | the plain fields and the checkbox are copied verbatim, the lists are parsed, and each link is absent exactly when its text is empty and otherwise passed through |
| ProjectForm.OptionalLink | src/components/admin/project-form.tsx:56-58 | an optional link defaulted to `undefined` is absent exactly for the empty string, and otherwise passes the string through |
| ProjectForm.SaveCall | src/components/admin/project-form.tsx:63-67 | submitting updates the given project (by its id) when the form was opened on one, and creates otherwise, always with the parsed data |
| ProjectForm.SubmitButtonLabel | src/components/admin/project-form.tsx:119-123 | the button reads "Saving..." while submitting, otherwise "Update Project" when editing and "Create Project" when creating |
| ProjectForm.WithText | src/components/admin/project-form.tsx:141-400 | an input's change sets that field and leaves every other field and the checkbox as they were |
| ProjectForm.NewProjectDefaults | src/components/admin/project-form.tsx:28-41 | a new project's form is empty except for status `IN_PROGRESS`, and it is public |
| ProjectForm.VisibilityIsKept | src/components/admin/project-form.tsx:40 | `??` keeps a stored `isPublic`, including `false` |
| ProjectForm.TechStackOfEmptyText | src/components/admin/project-form.tsx:53 | an empty tech-stack input is submitted as `[""]` |
| ProjectForm.TechStackKeepsEmptyPieces | src/components/admin/project-form.tsx:53 | `"a,,b"` gives `["a", "", "b"]`: empty pieces are kept |
| ProjectForm.TechStackTrimsPieces | src/components/admin/project-form.tsx:53 | for a text of the shape `" " + a + " ," + b`, with `a` and `b` free of commas and of blanks at their ends, the leading blank and the blank before the comma are trimmed and the stored stack is `[a, b]` |
| ProjectForm.ParseOfPieces | src/components/admin/project-form.tsx:53 | the tech stack of a text is the trimmed pieces of its split |
| ProjectForm.TrimPadding | src/components/admin/project-form.tsx:53 | trimming removes one space on each side of an already trimmed string |
| ProjectForm.TechStackRoundTrip | src/components/admin/project-form.tsx:33 | showing a stored tech stack and submitting it unchanged gives it back if and only if it is non-empty and every entry is trimmed and free of commas |
| ProjectForm.TechStackRoundTripIf | src/components/admin/project-form.tsx:33 | the "if" half: such a stack survives the join with `", "` and the parse |
| ProjectForm.TechStackRoundTripOnlyIf | src/components/admin/project-form.tsx:53 | the "only if" half: a stack that survives has only trimmed, comma-free entries |
| ProjectForm.EmptyTechStack | src/components/admin/project-form.tsx:33 | an empty stored tech stack is shown as `""` and submitted as `[""]` |
| ProjectForm.Padded | src/components/admin/project-form.tsx:33 | the pieces that join with `","` to the `", "` join: each entry after the first carries a space in front |
| ProjectForm.JoinPadded | src/components/admin/project-form.tsx:33 | the join with `", "` is the join of the padded entries with `","` |
| ProjectForm.JoinPaddedTail | src/components/admin/project-form.tsx:33 | joining space-prefixed entries with `","` is a space followed by the `", "` join |
| ProjectForm.CountCharAppend | src/components/admin/project-form.tsx:53 | the occurrences of a character in a concatenation add up |
| ProjectForm.CountCharZero | src/components/admin/project-form.tsx:53 | a character occurs zero times exactly when it is absent |
| ProjectForm.SplitLength | src/components/admin/project-form.tsx:53 | a split yields one piece more than there are separators |
| ProjectForm.CommaCountOfJoin | src/components/admin/project-form.tsx:33 | a join with `","` holds one more comma between each two entries than the entries hold |
| ProjectForm.CommaFreeIfNoCount | src/components/admin/project-form.tsx:33 | entries of a list with no commas in them are comma-free |
| ProjectForm.FeatureLines | src/components/admin/project-form.tsx:55 | the features parsed are exactly the non-blank lines of the text, verbatim, in order, with every copy kept |
| ProjectForm.FeatureLinesAreNotTrimmed | src/components/admin/project-form.tsx:55 | a kept line keeps its surrounding spaces, and the blank lines after it are dropped |
| ProjectForm.NoFeatures | src/components/admin/project-form.tsx:55 | an empty feature list is shown as `""` and submitted as `[]` |
| ProjectForm.FeaturesRoundTripIff | src/components/admin/project-form.tsx:35 | a feature list survives the join with a newline and the parse if and only if no entry holds a newline or is blank; the empty list survives |
| ProjectForm.FeaturesRoundTripIf | src/components/admin/project-form.tsx:55 | the "if" half of the feature round trip |
| ProjectForm.UntouchedEditRoundTrip | src/components/admin/project-form.tsx:48-61 | opening a stored project and submitting it untouched sends back exactly its fields if and only if its status is set, both lists round-trip and no link is stored as `""` |
| ProjectForm.ProjectFormState.constructor | src/components/admin/project-form.tsx:26-41 | the form starts with the initial form data, on the Basic section, not submitting |
| ProjectForm.ProjectFormState.SelectSection | src/components/admin/project-form.tsx:101 | a sidebar button makes its section the visible one |
| ProjectForm.ProjectFormState.EditText | src/components/admin/project-form.tsx:141-400 | an input's change replaces exactly that field |
| ProjectForm.ProjectFormState.SetPublic | src/components/admin/project-form.tsx:384-386 | the checkbox sets visibility and nothing else |
| ProjectForm.ProjectFormState.BeginSubmit | src/components/admin/project-form.tsx:43-67 | the submit goes through exactly when no save is under way (the button is disabled) and no required input of the visible section is empty; it then raises the flag and issues the create or update call with the parsed data, and otherwise changes nothing |
| ProjectForm.ProjectFormState.FinishSubmit | src/components/admin/project-form.tsx:69-76 | after the call the flag is lowered on success and on error; success goes to the list, an error is alerted |
| ProjectForm.SubmitFlagLifecycle | src/components/admin/project-form.tsx:45-76 | from a fresh form the call goes out exactly when the first section's required inputs are filled; the flag is up while it is out and down afterwards, whether it succeeded or threw |
| ProjectForm.NewFormIsBlocked | src/components/admin/project-form.tsx:155-160 | submitting an untouched new-project form makes no call and leaves the flag down |
| Catalog.CategoryNames | src/components/portfolio/project-grid.tsx:14 | `projects.map(p => p.category)`, position by position |
| Catalog.Categories | src/components/portfolio/project-grid.tsx:14 | the categories start with `all`, include every project's category, and list only categories that occur |
| Catalog.CategoriesDistinct | src/components/portfolio/masonry-grid.tsx:16 | each category after `all` is listed once |
| Catalog.CategoriesInFirstOccurrenceOrder | src/components/portfolio/project-grid-masonry.tsx:15 | the categories after `all` come in the order in which they first occur |
| Catalog.FilterProjects | src/components/portfolio/project-grid-masonry.tsx:16-17 | the `all` filter is the identity; another filter keeps only that category; the result is never longer than the input and only holds input projects |
| Catalog.FilterKeepsExactlyTheCategory | src/components/portfolio/masonry-grid.tsx:17-18 | a category filter keeps an order-preserving subsequence and loses no project of that category |
| Catalog.CategoryButtonsNeverEmpty | src/components/portfolio/project-grid.tsx:14-16 | a filter taken from the buttons selects nothing if and only if there are no projects |
| Catalog.CategoryNamedAll | src/components/portfolio/project-grid.tsx:14-16 | a project whose category is literally `all` adds a second `all` button, and that button shows every project |
| Catalog.FilterButtons | src/components/portfolio/masonry-grid.tsx:61-78 | one button per category, captioned with its capitalisation, highlighted exactly when it equals the filter |
| Catalog.SomeButtonActive | src/components/portfolio/masonry-grid.tsx:61-78 | some button is highlighted if and only if the filter is one of the categories |
| Catalog.AllListedOnce | src/components/portfolio/masonry-grid.tsx:16 | unless a project's category is literally `all`, the whole button list has no repeats |
| Catalog.AtMostOneActiveButton | src/components/portfolio/masonry-grid.tsx:61-78 | in that case at most one button is highlighted |
| CardParts.StatusColor | src/components/admin/project-list.tsx:27-40 | `getStatusColor` is total, and gives the gray default exactly for a status it does not name |
| CardParts.StatusColorsDistinct | src/components/portfolio/project-card.tsx:139-152 | the four named statuses get four different badges |
| CardParts.StatusLabel | src/components/portfolio/project-card.tsx:57 | the status text keeps the length, replaces the first `_` with a space and nothing else, and leaves a status without `_` unchanged |
| CardParts.StatusLabelOfFirstWord | src/components/portfolio/masonry-project-card.tsx:58 | after an underscore-free first word the `_` becomes a space, and later underscores stay |
| CardParts.Truncate | src/components/portfolio/project-card-masonry.tsx:109-121 | at most `k` leading entries are shown; the overflow number appears exactly when there are more than `k`, is positive, and shown plus overflow is the length |
| CardParts.OverflowChip | src/components/portfolio/project-card.tsx:75-88 | the chip is `+` followed by `NatToString` of the overflow count, and the digits read back as that count |
| CardParts.CardMedia | src/components/portfolio/masonry-project-card.tsx:36-50 | a truthy `imageUrl` is shown with the title as alt text; otherwise the placeholder is the title's first character, empty for an empty title |
| CardParts.Face | src/components/portfolio/project-card.tsx:25-88 | a card links to `/project/<slug>` and shows the title, the description, the media of `CardMedia`, the badge of `StatusColor` and `StatusLabel`, and the tech stack truncated to three |
| ProjectCard.View | src/components/portfolio/project-card.tsx:99-123 | the "View Demo" button is there exactly for a truthy `demoUrl` and the "GitHub" button exactly for a truthy `githubUrl`, each opening its own non-empty address |
| ProjectCard.EmptyLinkShowsNoButton | src/components/portfolio/project-card.tsx:99-110 | a link stored as `""` shows no button, like a missing one |
| ProjectCardMasonry.HeightClass | src/components/portfolio/project-card-masonry.tsx:18-19 | the height class is always one of the five in the table |
| ProjectCardMasonry.HeightRepeats | src/components/portfolio/project-card-masonry.tsx:18-19 | positions that agree modulo five get the same height |
| ProjectCardMasonry.HeightCycleSeam | src/components/portfolio/project-card-masonry.tsx:18 | the last card of a cycle and the first of the next are equally tall |
| ProjectCardMasonry.View | src/components/portfolio/project-card-masonry.tsx:18-121 | the card shows the shared face and the project's category, and its height is `heights[index % 5]` |
| MasonryProjectCard.View | src/components/portfolio/masonry-project-card.tsx:15-99 | the card shows the shared face, with the overflow chip exactly when there are more than three technologies |
| MasonryProjectCard.ContentIgnoresIndexAndVariant | src/components/portfolio/masonry-project-card.tsx:12-15 | neither the position nor the `variant` prop changes what is shown |
| MasonryGrid.AccentAfter | src/components/portfolio/masonry-grid.tsx:37-40 | the accent is always an entry of the five-block table |
| MasonryGrid.Step | src/components/portfolio/masonry-grid.tsx:34-43 | one iteration appends the project with its position, then the accent `AccentAfter(i)` exactly when `AccentFollows(i)` |
| MasonryGrid.Mixed | src/components/portfolio/masonry-grid.tsx:33-44 | the mixed content of `n` projects has `n + n/3` items; `MasonryGrid.MixedLayout` places each item |
| MasonryGrid.CreateMixedContent | src/components/portfolio/masonry-grid.tsx:30-47 | the loop builds exactly the mixed content `Mixed` of the filtered list; the table lookup in its guard never fails |
| MasonryGrid.ProjectsOf | src/components/portfolio/masonry-grid.tsx:33-44 | the projects of a mixed list are never more than its items |
| MasonryGrid.ProjectsOfAppend | src/components/portfolio/masonry-grid.tsx:33-44 | taking the projects of a concatenation concatenates the projects |
| MasonryGrid.ProjectsOfStep | src/components/portfolio/masonry-grid.tsx:34 | one iteration contributes exactly its project |
| MasonryGrid.ProjectsOfMixed | src/components/portfolio/masonry-grid.tsx:33-34 | dropping the accents gives back the filtered projects in order |
| MasonryGrid.MixedLayout | src/components/portfolio/masonry-grid.tsx:37-43 | there are `n + n/3` items, project `i` sits at `i + i/3`, and right behind it is `accentBlocks[(i/3) % 5]` exactly when `(i+1) % 3 == 0` |
| MasonryGrid.NextProjectFollows | src/components/portfolio/masonry-grid.tsx:33-44 | behind a project that no accent follows comes the next project |
| MasonryGrid.AccentCount | src/components/portfolio/masonry-grid.tsx:37-43 | there are `n / 3` accents |
| MasonryGrid.AccentsAreSeparated | src/components/portfolio/masonry-grid.tsx:33-44 | the content never starts with an accent and never has two accents side by side |
| MasonryGrid.TileOf | src/components/portfolio/masonry-grid.tsx:83-96 | a project item renders as the shared face of its project, whatever its position; an accent item as its block |
| MasonryGrid.Render | src/components/portfolio/masonry-grid.tsx:81-108 | the empty-category message appears exactly when the filter keeps nothing; otherwise tile `k` is the rendering of item `k` of the mixed content, `n + n/3` tiles in all |
| MasonryGrid.FirstTileIsFirstProject | src/components/portfolio/masonry-grid.tsx:82-108 | with the `all` filter the first tile is the first project's card |
| ProjectGridMasonry.Render | src/components/portfolio/project-grid-masonry.tsx:50-64 | the empty-category message appears exactly when the filter keeps nothing; otherwise there is one card per filtered project, in order, with its position in the filtered list |
| ProjectGridMasonry.AllShowsEveryProject | src/components/portfolio/project-grid-masonry.tsx:16-17 | with `all`, there are as many cards as projects and card `k` is the masonry card of project `k` at index `k`; the message appears exactly when there are no projects |
| ProjectGridMasonry.CategoryViewShowsOnlyTheCategory | src/components/portfolio/project-grid-masonry.tsx:16-17 | under a category filter every card shown is of that category, and there are at most as many cards as projects |
| ProjectGridMasonry.ButtonsNeverShowTheEmptyMessage | src/components/portfolio/project-grid-masonry.tsx:15-17 | when there are projects, no filter button leads to the empty message |
| ProjectGrid.Render | src/components/portfolio/project-grid.tsx:39-48 | the empty-category message appears exactly when the filter keeps nothing; otherwise there is one card per filtered project, in order |
| ProjectGrid.EveryCategoryShowsCards | src/components/portfolio/project-grid.tsx:14-16 | every category button yields cards if and only if there are projects |
| ProjectGrid.UnknownCategoryShowsMessage | src/components/portfolio/project-grid.tsx:39-48 | a filter naming no category shows the message |
| ProjectGallery.PrevIndex | src/components/portfolio/project-gallery.tsx:60 | the left arrow stays in range, and one step forward from its result is the starting index |
| ProjectGallery.NextIndex | src/components/portfolio/project-gallery.tsx:68 | the right arrow moves to `(i + 1) mod n`, in range |
| ProjectGallery.NextOfPrev | src/components/portfolio/project-gallery.tsx:60-68 | the right arrow undoes the left one |
| ProjectGallery.PrevOfNext | src/components/portfolio/project-gallery.tsx:60-68 | the left arrow undoes the right one |
| ProjectGallery.NextTimes | src/components/portfolio/project-gallery.tsx:68 | any number of right-arrow presses stays in range |
| ProjectGallery.NextTimesAdd | src/components/portfolio/project-gallery.tsx:68 | `a` presses then `b` presses is `a + b` presses |
| ProjectGallery.NextTimesAhead | src/components/portfolio/project-gallery.tsx:68 | until the end is reached, `k` presses advance by `k` |
| ProjectGallery.FullTurn | src/components/portfolio/project-gallery.tsx:68 | `n` presses of the right arrow return to the start |
| ProjectGallery.NextTimesPeriodic | src/components/portfolio/project-gallery.tsx:68 | the right arrow cycles with period `n` |
| ProjectGallery.AltText | src/components/portfolio/project-gallery.tsx:37 | the alt text is the label unless that is null or empty, then the fallback |
| ProjectGallery.ThumbnailAlt | src/components/portfolio/project-gallery.tsx:97 | a thumbnail's alt text is its label, or `Thumbnail ` followed by its position counted from one |
| ProjectGallery.Overlay | src/components/portfolio/project-gallery.tsx:100-103 | the label overlay appears exactly for a truthy label |
| ProjectGallery.Render | src/components/portfolio/project-gallery.tsx:20-124 | nothing for no images; otherwise the selected image with its alt text and label, and arrows, thumbnails and dots only when there is more than one image, the selected one highlighted |
| ProjectGallery.OneHighlight | src/components/portfolio/project-gallery.tsx:88 | exactly one thumbnail and exactly one dot are highlighted: the selected image's |
| ProjectGallery.Gallery.Current | src/components/portfolio/project-gallery.tsx:20-37 | the rendered gallery is empty exactly without images, and shows the selected image otherwise |
| ProjectGallery.Gallery.constructor | src/components/portfolio/project-gallery.tsx:18 | the gallery starts on the first image, with the index in range |
| ProjectGallery.Gallery.Previous | src/components/portfolio/project-gallery.tsx:60 | the left arrow keeps the index in range and applies `PrevIndex` |
| ProjectGallery.Gallery.Next | src/components/portfolio/project-gallery.tsx:68 | the right arrow keeps the index in range and applies `NextIndex` |
| ProjectGallery.Gallery.Select | src/components/portfolio/project-gallery.tsx:86 | a thumbnail or dot selects its own image |
| ProjectGallery.ArrowSession | src/components/portfolio/project-gallery.tsx:60-86 | on three images, back from the first goes to the last, forward returns to the first, and a thumbnail jumps to its image |
| StatsCards.VisibilityPartition | src/components/admin/stats-cards.tsx:13-15 | the public and private counts add up to the total |
| StatsCards.StatusCountsFit | src/components/admin/stats-cards.tsx:16-18 | the four status counts together never exceed the total |
| StatsCards.CountStatus | src/components/admin/stats-cards.tsx:16-18 | a status count is at most the total, and zero exactly when no project has that status |
| StatsCards.ComputeStats | src/components/admin/stats-cards.tsx:12-19 | total is the number of projects; public and private are the lengths of the visibility filters, the three status counts those of their status filters; public plus private is the total and the status counts together fit in it |
| StatsCards.MaintenanceIsNotCounted | src/components/admin/stats-cards.tsx:16-18 | a project under maintenance counts in the total but in no status counter |
| StatsCards.Cards | src/components/admin/stats-cards.tsx:21-40 | three cards: the total, then the public count, then the private count, the last two adding up to the first |
| ProjectList.MoreBadge | src/components/admin/project-list.tsx:98 | the badge is `+`, `NatToString` of the overflow, then ` more`, and the digits read back as the overflow |
| ProjectList.DeleteCaption | src/components/admin/project-list.tsx:125 | the delete button reads "Deleting..." while its delete is under way, otherwise "Delete" |
| ProjectList.RowView | src/components/admin/project-list.tsx:54-125 | a row shows the project's thumbnail exactly for a truthy `imageUrl`, its title, description and category, the badge of `StatusColor` and `StatusLabel`, the Private badge exactly for a private project, at most five technologies with the `+N more` badge exactly above five, links to `/admin/edit/<id>`, and its delete button is disabled exactly when its id is being deleted |
| ProjectList.Render | src/components/admin/project-list.tsx:135 | one row per project, in order, and the empty state exactly when there are no projects |
| ProjectList.OneDisabledRow | src/components/admin/project-list.tsx:122 | no row is disabled without a delete under way, and with distinct ids at most one row is disabled |
| ProjectList.ProjectListState.View | src/components/admin/project-list.tsx:65-135 | the rendered list has one row per project |
| ProjectList.ProjectListState.constructor | src/components/admin/project-list.tsx:17 | no delete is under way at first |
| ProjectList.ProjectListState.BeginDelete | src/components/admin/project-list.tsx:19-21 | called only while the row's button is enabled (its id is not the one being deleted); without confirmation nothing happens; with it, `deletingId` becomes the id and the delete call is issued |
| ProjectList.ProjectListState.FinishDelete | src/components/admin/project-list.tsx:21-23 | a returning delete clears the marker; a throwing one leaves it set |
| ProjectList.FailedDeleteLeavesRowDisabled | src/components/admin/project-list.tsx:21-23 | after a delete that throws, the row's button stays disabled and reads "Deleting..." |
| ProjectList.OverlappingDeletes | src/components/admin/project-list.tsx:19-25 | when the first of two overlapping deletes returns, the second row's button is enabled again |
| ProjectList.CancelledDeleteChangesNothing | src/components/admin/project-list.tsx:20 | a cancelled confirmation issues no call and disables nothing |
| Navigation.IsActive | src/components/navigation.tsx:38 | no link is active without a pathname, and an active link's href is a prefix of the pathname |
| Navigation.AdminLinkScope | src/components/navigation.tsx:38 | `/admin` is active on `/admin` and every page below it, but not on `/administrator` |
| Navigation.PortfolioLinkScope | src/components/navigation.tsx:38 | `/` is active on `/`; under it, only for paths that begin with `//`, so for no ordinary page |
| Navigation.AtMostOneActive | src/components/navigation.tsx:10-13 | for any pathname at most one of the two links is active |
| Navigation.Render | src/components/navigation.tsx:37-38 | the bar shows the two links in order, each highlighted exactly when `isActive` holds, never both |

## Left out

- The server actions (`createProject`, `updateProject`, `deleteProject`), the database, `revalidatePath`, the pages that fetch and compose, the seed and reset scripts, the hero and the accent-block component. Each is either a library call whose behaviour cannot be seen, or pure composition. The store calls are modelled only as the call issued and whether it succeeded.
- ProjectList.ProjectListState: `projects` is fixed for the life of the object, so the model does not show the deleted row disappearing once the page refreshes with the new list.
- ProjectForm.Submission: on update, `undefined` for an empty link means "leave the stored link unchanged" in the ORM. The model records only that the link is absent from the payload.
- ProjectForm: which inputs each section shows, and the placeholder, label and styling texts, are left out. All sections edit the one `formData`, so `EditText` covers every text input. `EditText` on the status field also admits values the four-item Select (src/components/admin/project-form.tsx:206-218) cannot produce; this is the same deliberate over-approximation. The browser's `required` check is modelled only as "an empty required input of the visible section blocks the submit", without the message the browser shows.
- Text.Trim: only ASCII whitespace (space, tab, newline, vertical tab, form feed, carriage return) is trimmed. JavaScript also trims the other Unicode spaces and line terminators.
- Text.UpperChar: upper-cases only `a`-`z`, not the rest of Unicode.
- Text.FirstChar: strings here are sequences of Unicode code points, while `charAt(0)` returns the first UTF-16 code unit. For a title opening with a character outside the Basic Multilingual Plane (an emoji such as U+1F680) the source shows a lone surrogate, which renders as a replacement character, and the model shows the whole character. `Text.Capitalize` is not affected, because the two halves meet again after `slice(1)`.
- Seqs.Dedup: `new Set` is modelled by its observable result (each element once, in first-occurrence order), not as a JavaScript `Set`.
- Animation and timing values, such as delays, scales, opacities and the `index + 0.5` position of an accent, which is recorded as the integer `after` of the project it follows.
- `confirm`, `alert`, `console.error`, `window.open`, `router.push` and `router.refresh`. They are inputs (the confirmation answer, the call's success) or outcomes named by a datatype (`SubmitEffect`, the button's address).
- The hover state of the cards, which drives styling only, and the active-button classes, which differ between the grids. Only whether a button is highlighted is modelled.
- ProjectGallery.Gallery: `images` is fixed for the life of the object. When the prop changes, React keeps `selectedImage`, so the index could point past a shorter new list; the model does not capture this, so `Valid` always holds.
- The four copies of `getStatusColor`, of the status label and of the tech-stack slicing are the same expression in each file. They are modelled once, in CardParts.
- The icons of the stats cards and the gradient classes of the stats cards and accents are carried as data but have no properties.
- MasonryProjectCard.View: the `index` argument only delays the entrance animation, so it has no effect in the model.
- The stored `gallery` list of a project is not a field of `Projects.Project`. The form does not edit it, and the gallery component receives its images as a parameter.
