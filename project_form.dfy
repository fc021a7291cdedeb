/** The admin create/edit form: how a stored project becomes editable
    strings, how the strings are parsed back on submit, and the form's
    own state (the field values, the visible section, the "saving" flag). */
module ProjectForm {
  import opened Wrappers
  import opened Projects
  import Text
  import Seqs

  /** The `formData` state: every input holds a string, except the
      visibility checkbox. */
  datatype FormData = FormData(
    title: string,
    description: string,
    slug: string,
    status: string,
    techStack: string,
    why: string,
    features: string,
    imageUrl: string,
    demoUrl: string,
    githubUrl: string,
    category: string,
    isPublic: bool)

  /** The sidebar sections; only the active one's inputs are shown. */
  datatype Section = Basic | Content | Links | Settings

  /** The text inputs of the form. */
  datatype TextField =
    | Title | Description | Slug | Status | TechStack | Why | Features
    | ImageUrl | DemoUrl | GithubUrl | Category

  /** JavaScript `s || fallback` for a string. */
  function OrElse(s: string, fallback: string): (r: string)
    ensures s != "" ==> r == s
    ensures s == "" ==> r == fallback
  {
    if s != "" then s else fallback
  }

  /** `project?.imageUrl || ''` for an optional link of a present project. */
  function LinkText(link: Option<string>): (r: string)
    ensures r == "" <==> link == None || link == Some("")
  {
    match link
    case None => ""
    case Some(u) => OrElse(u, "")
  }

  /** The initial `formData`: the stored project's fields as strings, the tech
      stack joined with `", "` and the features with a newline; without a
      project, empty strings, status `IN_PROGRESS` and public. Visibility uses
      `??`, so a stored `false` is kept. */
  function InitialFormData(project: Option<Project>): (f: FormData)
    ensures f.status != ""
    ensures project.None? ==> f.status == IN_PROGRESS && f.isPublic
    ensures project.Some? ==> f.isPublic == project.value.isPublic
    ensures project.Some? ==> f.title == project.value.title && f.description == project.value.description
    ensures project.Some? ==> f.slug == project.value.slug && f.why == project.value.why
    ensures project.Some? ==> f.category == project.value.category
    ensures project.Some? && Truthy(project.value.imageUrl) ==> f.imageUrl == project.value.imageUrl.value
    ensures project.Some? && Truthy(project.value.demoUrl) ==> f.demoUrl == project.value.demoUrl.value
    ensures project.Some? && Truthy(project.value.githubUrl) ==> f.githubUrl == project.value.githubUrl.value
    ensures project.Some? ==> (f.status == project.value.status <==> project.value.status != "")
    ensures project.Some? ==> f.techStack == TechStackText(project.value.techStack)
    ensures project.Some? ==> f.features == FeaturesText(project.value.features)
    ensures project.Some? ==> (f.imageUrl == "" <==> !Truthy(project.value.imageUrl))
    ensures project.Some? ==> (f.demoUrl == "" <==> !Truthy(project.value.demoUrl))
    ensures project.Some? ==> (f.githubUrl == "" <==> !Truthy(project.value.githubUrl))
  {
    match project
    case None =>
      FormData("", "", "", IN_PROGRESS, "", "", "", "", "", "", "", true)
    case Some(p) =>
      FormData(
        OrElse(p.title, ""), OrElse(p.description, ""), OrElse(p.slug, ""),
        OrElse(p.status, IN_PROGRESS),
        OrElse(Text.Join(p.techStack, ", "), ""),
        OrElse(p.why, ""),
        OrElse(Text.Join(p.features, "\n"), ""),
        LinkText(p.imageUrl), LinkText(p.demoUrl), LinkText(p.githubUrl),
        OrElse(p.category, ""),
        p.isPublic)
  }

  /** `techStack.split(',').map(s => s.trim())`: every piece is kept, even an empty one. */
  function ParseTechStack(s: string): (r: seq<string>)
    ensures |r| >= 1
    ensures forall i :: 0 <= i < |r| ==> ',' !in r[i] && Text.Trimmed(r[i])
  {
    var parts := Text.Split(s, ',');
    seq(|parts|, i requires 0 <= i < |parts| => Text.Trim(parts[i]))
  }

  /** The filter on feature lines: `f.trim()` is truthy. */
  predicate IsFeatureLine(line: string)
  {
    Text.Trim(line) != ""
  }

  /** `features.split('\n').filter(f => f.trim())`. */
  function ParseFeatures(s: string): (features: seq<string>)
    ensures |features| <= |Text.Split(s, '\n')|
    ensures forall i :: 0 <= i < |features| ==> IsFeatureLine(features[i]) && '\n' !in features[i]
  {
    var lines := Text.Split(s, '\n');
    var features := Seqs.Keep(lines, IsFeatureLine);
    assert forall i :: 0 <= i < |features| ==> features[i] in lines;
    features
  }

  /** `value || undefined` for an optional link. */
  function OptionalLink(s: string): (r: Option<string>)
    ensures r == None <==> s == ""
    ensures r.Some? ==> r.value == s
  {
    if s != "" then Some(s) else None
  }

  /** The `data` object built in `handleSubmit`. */
  function Submission(f: FormData): (data: ProjectInput)
    ensures data.title == f.title && data.description == f.description && data.slug == f.slug
    ensures data.status == f.status && data.why == f.why && data.category == f.category
    ensures data.isPublic == f.isPublic
    ensures data.techStack == ParseTechStack(f.techStack) && data.features == ParseFeatures(f.features)
    ensures data.imageUrl == None <==> f.imageUrl == ""
    ensures data.demoUrl == None <==> f.demoUrl == ""
    ensures data.githubUrl == None <==> f.githubUrl == ""
    ensures data.imageUrl.Some? ==> data.imageUrl.value == f.imageUrl
    ensures data.demoUrl.Some? ==> data.demoUrl.value == f.demoUrl
    ensures data.githubUrl.Some? ==> data.githubUrl.value == f.githubUrl
  {
    ProjectInput(
      f.title, f.description, f.slug, f.status,
      ParseTechStack(f.techStack),
      f.why,
      ParseFeatures(f.features),
      OptionalLink(f.imageUrl), OptionalLink(f.demoUrl), OptionalLink(f.githubUrl),
      f.category, f.isPublic)
  }

  /** The store call `handleSubmit` makes. */
  datatype StoreCall = Create(data: ProjectInput) | Update(id: string, data: ProjectInput)

  /** Update when the form was opened on a project, create otherwise. */
  function SaveCall(project: Option<Project>, f: FormData): (call: StoreCall)
    ensures call.data == Submission(f)
    ensures call.Update? <==> project.Some?
    ensures call.Update? ==> call.id == project.value.id
  {
    match project
    case None => Create(Submission(f))
    case Some(p) => Update(p.id, Submission(f))
  }

  /** What happens after the store call: navigate back to the list, or alert. */
  datatype SubmitEffect = GoToAdminList | AlertError

  /** The submit button's text. */
  function SubmitButtonLabel(isSubmitting: bool, editing: bool): (caption: string)
    ensures isSubmitting ==> caption == "Saving..."
    ensures !isSubmitting ==> caption == (if editing then "Update Project" else "Create Project")
  {
    if isSubmitting then "Saving..." else if editing then "Update Project" else "Create Project"
  }

  /** The current value of one text input. */
  function TextOf(f: FormData, field: TextField): string
  {
    match field
    case Title => f.title
    case Description => f.description
    case Slug => f.slug
    case Status => f.status
    case TechStack => f.techStack
    case Why => f.why
    case Features => f.features
    case ImageUrl => f.imageUrl
    case DemoUrl => f.demoUrl
    case GithubUrl => f.githubUrl
    case Category => f.category
  }

  /** `setFormData({ ...formData, [field]: value })`. */
  function WithText(f: FormData, field: TextField, value: string): (g: FormData)
    ensures TextOf(g, field) == value
    ensures forall other :: other != field ==> TextOf(g, other) == TextOf(f, other)
    ensures g.isPublic == f.isPublic
  {
    match field
    case Title => f.(title := value)
    case Description => f.(description := value)
    case Slug => f.(slug := value)
    case Status => f.(status := value)
    case TechStack => f.(techStack := value)
    case Why => f.(why := value)
    case Features => f.(features := value)
    case ImageUrl => f.(imageUrl := value)
    case DemoUrl => f.(demoUrl := value)
    case GithubUrl => f.(githubUrl := value)
    case Category => f.(category := value)
  }

  /** The inputs marked `required` in each section. Only the visible
      section's inputs are rendered, so only these are checked. */
  function RequiredFields(section: Section): (fields: seq<TextField>)
    ensures section == Basic ==> fields == [Title, Slug, Description, Category, TechStack]
    ensures section == Content ==> fields == [Why, Features]
    ensures section == Links || section == Settings ==> fields == []
  {
    match section
    case Basic => [Title, Slug, Description, Category, TechStack]
    case Content => [Why, Features]
    case Links => []
    case Settings => []
  }

  /** The browser's `required` check fails: some required input of the
      visible section is empty (whitespace counts as filled). */
  predicate MissingRequired(f: FormData, section: Section)
  {
    exists field :: field in RequiredFields(section) && TextOf(f, field) == ""
  }

  /** On the Links and Settings sections the check never fails, and on the
      others an edit to an input that is not shown never changes its outcome. */
  lemma RequiredCheckSeesOnlyTheSection(f: FormData, section: Section, field: TextField, value: string)
    ensures section == Links || section == Settings ==> !MissingRequired(f, section)
    ensures field !in RequiredFields(section) ==>
              (MissingRequired(WithText(f, field, value), section) <==> MissingRequired(f, section))
  {
  }

  /** The empty new-project form fails the check on its first section. */
  lemma NewProjectMissesRequired()
    ensures MissingRequired(InitialFormData(None), Basic)
  {
    assert Title in RequiredFields(Basic) && TextOf(InitialFormData(None), Title) == "";
  }

  // ---- Properties of the conversion ----

  /** A new project starts as an empty, public, in-progress form. */
  lemma NewProjectDefaults()
    ensures InitialFormData(None).status == IN_PROGRESS
    ensures InitialFormData(None).isPublic
    ensures forall field :: TextOf(InitialFormData(None), field) == "" || field == Status
  {
  }

  /** `??` keeps a stored `isPublic == false`; `||` would have turned it into `true`. */
  lemma VisibilityIsKept(p: Project)
    ensures InitialFormData(Some(p)).isPublic == p.isPublic
  {
  }

  /** `"".split(',')` is `[""]`, so an empty input gives one empty entry. */
  lemma TechStackOfEmptyText()
    ensures ParseTechStack("") == [""]
  {
    assert Text.Split("", ',') == [""];
    assert Text.Trim("") == "";
  }

  /** Empty pieces between commas are kept: `"a,,b"` gives `["a", "", "b"]`. */
  lemma TechStackKeepsEmptyPieces(a: string, b: string)
    requires ',' !in a && ',' !in b && Text.Trimmed(a) && Text.Trimmed(b)
    ensures ParseTechStack(a + ",," + b) == [a, [], b]
  {
    SplitAroundEmptyPiece(a, b);
    PiecesAreTrimmed([a, [], b]);
    ParseOfPieces(a + ",," + b, [a, [], b], [a, [], b]);
  }

  lemma PiecesAreTrimmed(pieces: seq<string>)
    requires forall i :: 0 <= i < |pieces| ==> Text.Trimmed(pieces[i])
    ensures forall i :: 0 <= i < |pieces| ==> Text.Trim(pieces[i]) == pieces[i]
  {
    forall i | 0 <= i < |pieces| ensures Text.Trim(pieces[i]) == pieces[i] {
      Text.TrimOfTrimmed(pieces[i]);
    }
  }

  /** The tech stack of a text is the trimmed pieces of its split. */
  lemma ParseOfPieces(s: string, pieces: seq<string>, trimmed: seq<string>)
    requires Text.Split(s, ',') == pieces && |trimmed| == |pieces|
    requires forall i :: 0 <= i < |pieces| ==> Text.Trim(pieces[i]) == trimmed[i]
    ensures ParseTechStack(s) == trimmed
  {
  }

  lemma SplitAroundEmptyPiece(a: string, b: string)
    requires ',' !in a && ',' !in b
    ensures Text.Split(a + ",," + b, ',') == [a, [], b]
  {
    Text.SplitAtSeparator(a, "," + b, ',');
    Text.SplitAtSeparator("", b, ',');
    Text.SplitWithoutSeparator(b, ',');
    assert a + [','] + ("," + b) == a + ",," + b;
    assert "" + [','] + b == "," + b;
  }

  /** The blanks around the commas are trimmed: `" a ,b"` gives `["a", "b"]`. */
  lemma TechStackTrimsPieces(a: string, b: string)
    requires ',' !in a && ',' !in b && Text.Trimmed(a) && Text.Trimmed(b)
    ensures ParseTechStack(" " + a + " ," + b) == [a, b]
  {
    assert Text.Split(" " + a + " ," + b, ',') == [" " + a + " ", b] by {
      Text.SplitAtSeparator(" " + a + " ", b, ',');
      Text.SplitWithoutSeparator(b, ',');
      assert " " + a + " " + [','] + b == " " + a + " ," + b;
    }
    TrimPadding(a);
    Text.TrimOfTrimmed(b);
    ParseOfPieces(" " + a + " ," + b, [" " + a + " ", b], [a, b]);
  }

  lemma TrimPadding(a: string)
    requires Text.Trimmed(a)
    ensures Text.Trim(" " + a + " ") == a
  {
    var s := " " + a + " ";
    assert s[1..] == a + " ";
    assert Text.TrimStart(s) == Text.TrimStart(a + " ");
    if |a| > 0 {
      assert (a + " ")[0] == a[0];
      assert Text.TrimStart(a + " ") == a + " ";
      assert (a + " ")[..|a|] == a;
    } else {
      assert Text.TrimStart(" ") == "";
    }
  }

  /** The tech-stack text shown for a stored list (what `join(', ')` produces). */
  function TechStackText(stack: seq<string>): string
  {
    OrElse(Text.Join(stack, ", "), "")
  }

  /** The tech stacks `TechStackRoundTrip` accepts. */
  predicate TechStackRoundTrips(stack: seq<string>)
  {
    |stack| >= 1 && forall i :: 0 <= i < |stack| ==> ',' !in stack[i] && Text.Trimmed(stack[i])
  }

  /** A tech stack survives "show in the form, submit unchanged" exactly when
      it is non-empty and every entry is trimmed and free of commas. An empty
      stack comes back as `[""]`. */
  lemma TechStackRoundTrip(stack: seq<string>)
    ensures ParseTechStack(TechStackText(stack)) == stack <==> TechStackRoundTrips(stack)
  {
    if |stack| == 0 {
      EmptyTechStack();
    } else {
      JoinPadded(stack);
      if TechStackRoundTrips(stack) {
        TechStackRoundTripIf(stack);
      }
      if ParseTechStack(TechStackText(stack)) == stack {
        TechStackRoundTripOnlyIf(stack);
      }
    }
  }

  lemma TechStackRoundTripIf(stack: seq<string>)
    requires TechStackRoundTrips(stack)
    ensures ParseTechStack(TechStackText(stack)) == stack
  {
    var padded := Padded(stack);
    JoinPadded(stack);
    assert TechStackText(stack) == Text.Join(padded, ",");
    assert forall i :: 0 <= i < |padded| ==> ',' !in padded[i];
    Text.SplitOfJoin(padded, ',');
    var parsed := ParseTechStack(TechStackText(stack));
    assert |parsed| == |stack|;
    forall i | 0 <= i < |stack| ensures parsed[i] == stack[i] {
      assert parsed[i] == Text.Trim(padded[i]);
      if i == 0 {
        Text.TrimFixpoint(stack[0]);
      } else {
        Text.TrimLeadingSpace(stack[i]);
      }
    }
  }

  lemma TechStackRoundTripOnlyIf(stack: seq<string>)
    requires |stack| >= 1
    requires ParseTechStack(TechStackText(stack)) == stack
    ensures TechStackRoundTrips(stack)
  {
    var padded := Padded(stack);
    var parsed := ParseTechStack(TechStackText(stack));
    JoinPadded(stack);
    assert TechStackText(stack) == Text.Join(padded, ",");
    CommaCountOfJoin(padded);
    SplitLength(Text.Join(padded, ","), ',');
    assert CommasIn(padded) == 0;
    forall i | 0 <= i < |stack| ensures ',' !in stack[i] && Text.Trimmed(stack[i]) {
      assert Text.Trimmed(parsed[i]);
      CommaFreeIfNoCount(padded, i);
      assert ',' !in padded[i];
      assert i > 0 ==> forall k :: 0 <= k < |stack[i]| ==> stack[i][k] == padded[i][k + 1];
    }
  }

  /** An empty stored tech stack is shown as `""` and submitted as `[""]`. */
  lemma EmptyTechStack()
    ensures TechStackText([]) == ""
    ensures ParseTechStack(TechStackText([])) == [""]
  {
    assert Text.Split("", ',') == [""];
    assert Text.Trim("") == "";
  }

  /** The parts `join(', ')` glues together with `","`: every entry after the
      first carries the space of the separator. */
  function Padded(stack: seq<string>): (r: seq<string>)
    ensures |r| == |stack|
    ensures forall i :: 0 <= i < |r| ==> r[i] == if i == 0 then stack[i] else [' '] + stack[i]
  {
    seq(|stack|, i requires 0 <= i < |stack| => if i == 0 then stack[i] else [' '] + stack[i])
  }

  lemma {:induction false} JoinPadded(stack: seq<string>)
    requires |stack| >= 1
    ensures Text.Join(stack, ", ") == Text.Join(Padded(stack), ",")
  {
    if |stack| > 1 {
      var tail := stack[1..];
      var p := Padded(stack);
      assert p[1..] == seq(|tail|, i requires 0 <= i < |tail| => [' '] + tail[i]);
      JoinPaddedTail(tail);
      assert p == [stack[0]] + p[1..];
      Text.JoinCons(stack[0], p[1..], ",");
      Text.JoinCons(stack[0], tail, ", ");
      assert stack == [stack[0]] + tail;
      assert "," + [' '] == ", ";
    }
  }

  /** Joining the space-prefixed entries with `","` is a space, then the `", "` join. */
  lemma {:induction false} JoinPaddedTail(tail: seq<string>)
    requires |tail| >= 1
    ensures Text.Join(seq(|tail|, i requires 0 <= i < |tail| => [' '] + tail[i]), ",")
            == [' '] + Text.Join(tail, ", ")
  {
    var s := seq(|tail|, i requires 0 <= i < |tail| => [' '] + tail[i]);
    if |tail| > 1 {
      var t := tail[1..];
      JoinPaddedTail(t);
      var s' := seq(|t|, i requires 0 <= i < |t| => [' '] + t[i]);
      assert s[1..] == s';
    }
  }

  /** The number of occurrences of `c` in `s`. */
  function CountChar(s: string, c: char): nat
  {
    if |s| == 0 then 0 else (if s[0] == c then 1 else 0) + CountChar(s[1..], c)
  }

  lemma {:induction false} CountCharAppend(a: string, b: string, c: char)
    ensures CountChar(a + b, c) == CountChar(a, c) + CountChar(b, c)
  {
    if |a| > 0 {
      CountCharAppend(a[1..], b, c);
      assert (a + b)[1..] == a[1..] + b;
    } else {
      assert a + b == b;
    }
  }

  lemma {:induction false} CountCharZero(s: string, c: char)
    ensures CountChar(s, c) == 0 <==> c !in s
  {
    if |s| > 0 {
      CountCharZero(s[1..], c);
      assert s == [s[0]] + s[1..];
    }
  }

  /** Splitting yields one piece more than there are separators. */
  lemma {:induction false} SplitLength(s: string, c: char)
    ensures |Text.Split(s, c)| == CountChar(s, c) + 1
  {
    if |s| > 0 {
      SplitLength(s[1..], c);
    }
  }

  /** The commas in the entries of a list. */
  function CommasIn(parts: seq<string>): nat
  {
    if |parts| == 0 then 0 else CountChar(parts[0], ',') + CommasIn(parts[1..])
  }

  /** `join(',')` adds one comma between each two entries. */
  lemma {:induction false} CommaCountOfJoin(parts: seq<string>)
    requires |parts| >= 1
    ensures CountChar(Text.Join(parts, ","), ',') == |parts| - 1 + CommasIn(parts)
  {
    if |parts| > 1 {
      CommaCountOfJoin(parts[1..]);
      CountCharAppend(parts[0] + ",", Text.Join(parts[1..], ","), ',');
      CountCharAppend(parts[0], ",", ',');
      assert CountChar(",", ',') == 1 by { assert ","[1..] == ""; }
    }
  }

  lemma {:induction false} CommaFreeIfNoCount(parts: seq<string>, i: nat)
    requires i < |parts| && CommasIn(parts) == 0
    ensures ',' !in parts[i]
  {
    if i == 0 {
      CountCharZero(parts[0], ',');
    } else {
      CommaFreeIfNoCount(parts[1..], i - 1);
    }
  }

  /** What the feature parser keeps: exactly the lines of the text whose trimmed
      form is non-empty, verbatim (not trimmed) and in order. */
  lemma FeatureLines(s: string)
    ensures Seqs.IsSubsequence(ParseFeatures(s), Text.Split(s, '\n'))
    ensures forall i :: 0 <= i < |ParseFeatures(s)| ==> '\n' !in ParseFeatures(s)[i] && !Text.Blank(ParseFeatures(s)[i])
    ensures forall line :: !Text.Blank(line) ==>
              multiset(ParseFeatures(s))[line] == multiset(Text.Split(s, '\n'))[line]
  {
    var lines := Text.Split(s, '\n');
    Seqs.KeepIsSubsequence(lines, IsFeatureLine);
    forall i | 0 <= i < |ParseFeatures(s)|
      ensures '\n' !in ParseFeatures(s)[i] && !Text.Blank(ParseFeatures(s)[i])
    {
      Text.TrimBlank(ParseFeatures(s)[i]);
      assert ParseFeatures(s)[i] in lines;
    }
    forall line | !Text.Blank(line)
      ensures multiset(ParseFeatures(s))[line] == multiset(lines)[line]
    {
      Text.TrimBlank(line);
      Seqs.KeepCounts(lines, IsFeatureLine, line);
    }
  }

  /** A kept line is kept as it is, spaces around it included, and the empty
      lines after it are dropped. */
  lemma FeatureLinesAreNotTrimmed(x: string)
    requires '\n' !in x && !Text.Blank(x)
    ensures ParseFeatures(x + "\n\n") == [x]
  {
    var text := x + "\n\n";
    var lines := Text.Split(text, '\n');
    assert lines == [x, "", ""] by {
      assert text == x + ['\n'] + "\n";
      Text.SplitAtSeparator(x, "\n", '\n');
      assert "\n" == "" + ['\n'] + "";
      Text.SplitAtSeparator("", "", '\n');
      Text.SplitWithoutSeparator("", '\n');
    }
    var blanks := ["", ""];
    assert IsFeatureLine(x) && !IsFeatureLine("") by {
      Text.TrimBlank(x);
      Text.TrimBlank("");
    }
    Seqs.KeepEmpty(blanks, IsFeatureLine);
    assert lines[1..] == blanks;
    assert Seqs.Keep(lines, IsFeatureLine) == [x] + Seqs.Keep(blanks, IsFeatureLine);
  }

  /** The features text shown for a stored list (what `join('\n')` produces). */
  function FeaturesText(features: seq<string>): string
  {
    OrElse(Text.Join(features, "\n"), "")
  }

  /** An empty feature list is shown as `""`, whose one empty line is dropped. */
  lemma NoFeatures()
    ensures ParseFeatures(FeaturesText([])) == []
  {
    var lines := Text.Split("", '\n');
    assert lines == [""];
    Seqs.KeepEmpty(lines, IsFeatureLine);
    assert !IsFeatureLine(lines[0]) by { Text.TrimBlank(lines[0]); }
  }

  /** The feature lists `FeaturesRoundTripIff` accepts. */
  predicate FeaturesRoundTrip(features: seq<string>)
  {
    forall i :: 0 <= i < |features| ==> '\n' !in features[i] && !Text.Blank(features[i])
  }

  /** A feature list survives "show in the form, submit unchanged" exactly when
      no entry holds a newline or is blank; the empty list does survive. */
  lemma FeaturesRoundTripIff(features: seq<string>)
    ensures ParseFeatures(FeaturesText(features)) == features <==> FeaturesRoundTrip(features)
  {
    if FeaturesRoundTrip(features) {
      FeaturesRoundTripIf(features);
    }
    if ParseFeatures(FeaturesText(features)) == features {
      FeatureLines(FeaturesText(features));
    }
  }

  /** The "if" half of `FeaturesRoundTripIff`. */
  lemma FeaturesRoundTripIf(features: seq<string>)
    requires FeaturesRoundTrip(features)
    ensures ParseFeatures(FeaturesText(features)) == features
  {
    if |features| == 0 {
      NoFeatures();
    } else {
      assert FeaturesText(features) == Text.Join(features, "\n");
      Text.SplitOfJoin(features, '\n');
      forall i | 0 <= i < |features| ensures IsFeatureLine(features[i]) {
        Text.TrimBlank(features[i]);
      }
      Seqs.KeepAll(features, IsFeatureLine);
    }
  }

  /** The stored projects that the edit form writes back unchanged. */
  predicate RoundTrips(p: Project)
  {
    && p.status != ""
    && TechStackRoundTrips(p.techStack)
    && FeaturesRoundTrip(p.features)
    && p.imageUrl != Some("") && p.demoUrl != Some("") && p.githubUrl != Some("")
  }

  /** Opening a stored project in the edit form and submitting it untouched
      sends back exactly its fields if and only if it meets `RoundTrips`. */
  lemma UntouchedEditRoundTrip(p: Project)
    ensures Submission(InitialFormData(Some(p))) == FieldsOf(p) <==> RoundTrips(p)
  {
    var f := InitialFormData(Some(p));
    var sent, stored := Submission(f), FieldsOf(p);
    assert sent.status == stored.status <==> p.status != "";
    assert sent.techStack == stored.techStack <==> TechStackRoundTrips(p.techStack) by {
      assert f.techStack == TechStackText(p.techStack);
      TechStackRoundTrip(p.techStack);
    }
    assert sent.features == stored.features <==> FeaturesRoundTrip(p.features) by {
      assert f.features == FeaturesText(p.features);
      FeaturesRoundTripIff(p.features);
    }
    assert sent.imageUrl == stored.imageUrl <==> p.imageUrl != Some("");
    assert sent.demoUrl == stored.demoUrl <==> p.demoUrl != Some("");
    assert sent.githubUrl == stored.githubUrl <==> p.githubUrl != Some("");
    assert sent.title == stored.title && sent.description == stored.description && sent.slug == stored.slug;
    assert sent.why == stored.why && sent.category == stored.category && sent.isPublic == stored.isPublic;
  }

  /** The form's state. The async `handleSubmit` is split at its `await`:
      `BeginSubmit` runs up to the store call, `FinishSubmit` after it. */
  class ProjectFormState {
    const project: Option<Project>
    var formData: FormData
    var activeSection: Section
    var isSubmitting: bool

    constructor (project: Option<Project>)
      ensures this.project == project
      ensures formData == InitialFormData(project)
      ensures activeSection == Basic && !isSubmitting
    {
      this.project := project;
      formData := InitialFormData(project);
      activeSection := Basic;
      isSubmitting := false;
    }

    /** A sidebar button: `setActiveSection(section.id)`. */
    method SelectSection(section: Section)
      modifies this`activeSection
      ensures activeSection == section
    {
      activeSection := section;
    }

    /** An input's `onChange`: one text field takes the new value. */
    method EditText(field: TextField, value: string)
      modifies this`formData
      ensures formData == WithText(old(formData), field, value)
    {
      formData := WithText(formData, field, value);
    }

    /** The visibility checkbox's `onChange`. */
    method SetPublic(checked: bool)
      modifies this`formData
      ensures formData == old(formData).(isPublic := checked)
    {
      formData := formData.(isPublic := checked);
    }

    /** A press of the submit button (or Enter in an input). The browser runs
        `onSubmit` only when the button is enabled, that is not while a save
        is under way, and when no `required` input of the visible section is
        empty; otherwise nothing happens. When it runs, `handleSubmit` up to
        the store call raises the flag and issues the update (editing) or
        create (new) call with the parsed data. */
    method BeginSubmit() returns (call: Option<StoreCall>)
      modifies this`isSubmitting
      ensures call.Some? <==> !old(isSubmitting) && !MissingRequired(formData, activeSection)
      ensures call.Some? ==> isSubmitting && call.value == SaveCall(project, formData)
      ensures call.None? ==> isSubmitting == old(isSubmitting)
    {
      if !isSubmitting && !MissingRequired(formData, activeSection) {
        isSubmitting := true;
        call := Some(SaveCall(project, formData));
      } else {
        call := None;
      }
    }

    /** `handleSubmit` after the store call: success navigates to the list,
        a thrown error is alerted, and `finally` lowers the flag either way. */
    method FinishSubmit(saved: bool) returns (effect: SubmitEffect)
      modifies this`isSubmitting
      ensures !isSubmitting
      ensures effect == if saved then GoToAdminList else AlertError
    {
      effect := if saved then GoToAdminList else AlertError;
      isSubmitting := false;
    }
  }

  /** One submission from a fresh form: the flag is up while the call is out
      and down afterwards, whether the call succeeded or threw. It goes out
      exactly when the opened project fills every required input of the first
      section. */
  method SubmitFlagLifecycle(project: Option<Project>, saved: bool)
    returns (during: bool, after: bool, call: Option<StoreCall>)
    ensures call.Some? <==> !MissingRequired(InitialFormData(project), Basic)
    ensures call.Some? ==> during && !after && call.value == SaveCall(project, InitialFormData(project))
    ensures call.None? ==> !during && !after
  {
    var form := new ProjectFormState(project);
    call := form.BeginSubmit();
    during := form.isSubmitting;
    if call.Some? {
      var _ := form.FinishSubmit(saved);
    }
    after := form.isSubmitting;
  }

  /** A new project cannot be submitted before its title is typed in: the
      browser stops the submit, and no call is made. */
  method NewFormIsBlocked() returns (call: Option<StoreCall>, flag: bool)
    ensures call == None && !flag
  {
    var form := new ProjectFormState(None);
    NewProjectMissesRequired();
    call := form.BeginSubmit();
    flag := form.isSubmitting;
  }
}
