/** The pieces every project card and every admin row is built from. Each of
    the four source files that render a project (the three portfolio cards and
    the admin list) carries its own copy of `getStatusColor` and of the status
    label and tech-stack slicing; the copies are identical, so they are defined
    once here. */
module CardParts {
  import opened Wrappers
  import opened Projects
  import Text
  import Seqs

  /** The statuses `getStatusColor` names. */
  const KNOWN_STATUSES: seq<string> := [COMPLETED, IN_PROGRESS, PLANNING, MAINTENANCE]

  /** The classes of the `default` branch. */
  const DEFAULT_STATUS_CLASS: string := "bg-gray-500/90 text-white"

  /** `getStatusColor`: the badge classes for a status. Total: a status it
      does not name gets the gray default. */
  function StatusColor(status: string): (cls: string)
    ensures cls == DEFAULT_STATUS_CLASS <==> status !in KNOWN_STATUSES
  {
    if status == COMPLETED then "bg-green-500/90 text-white"
    else if status == IN_PROGRESS then "bg-blue-500/90 text-white"
    else if status == PLANNING then "bg-yellow-500/90 text-black"
    else if status == MAINTENANCE then "bg-purple-500/90 text-white"
    else DEFAULT_STATUS_CLASS
  }

  /** The four named statuses get four different badges. */
  lemma StatusColorsDistinct(s: string, t: string)
    requires s in KNOWN_STATUSES && t in KNOWN_STATUSES && s != t
    ensures StatusColor(s) != StatusColor(t)
  {
  }

  /** `status.replace('_', ' ')`: with a string pattern, JavaScript replaces
      only the first underscore. */
  function StatusLabel(status: string): (caption: string)
    ensures |caption| == |status|
    ensures '_' !in status ==> caption == status
    ensures '_' in status ==>
      var k := Seqs.IndexOf(status, '_');
      '_' !in status[..k] && caption[..k] == status[..k] && caption[k] == ' ' && caption[k + 1..] == status[k + 1..]
  {
    Text.ReplaceFirst(status, '_', ' ')
  }

  /** The underscore after an underscore-free first word becomes a space; any
      later underscore in `rest` stays (so `"IN_PROGRESS"` reads
      `"IN PROGRESS"`, and `"ON_HOLD_NOW"` reads `"ON HOLD_NOW"`). */
  lemma StatusLabelOfFirstWord(word: string, rest: string)
    requires '_' !in word
    ensures StatusLabel(word + "_" + rest) == word + " " + rest
  {
    var s := word + "_" + rest;
    assert s[|word|] == '_' && s[..|word|] == word;
    Seqs.FirstOccurrenceUnique(s, '_', Seqs.IndexOf(s, '_'), |word|);
    assert s[|word| + 1..] == rest;
  }

  /** What a card shows of a tech stack: the first entries, and the number of
      the others when there are any. */
  datatype TechPreview = TechPreview(shown: seq<string>, overflow: Option<nat>)

  /** `techStack.slice(0, k)` together with the `techStack.length > k` chip
      whose number is `techStack.length - k`. */
  function Truncate(stack: seq<string>, k: nat): (t: TechPreview)
    ensures |t.shown| <= k && |t.shown| <= |stack| && t.shown == stack[..|t.shown|]
    ensures t.overflow.Some? <==> |stack| > k
    ensures t.overflow.Some? ==> |t.shown| == k && t.overflow.value > 0
    ensures |t.shown| + (if t.overflow.Some? then t.overflow.value else 0) == |stack|
  {
    if |stack| > k then TechPreview(stack[..k], Some(|stack| - k)) else TechPreview(stack, None)
  }

  /** The overflow chip of the cards, `+{n}`: a plus sign and the decimal
      digits of `n`. */
  function OverflowChip(n: nat): (caption: string)
    ensures caption == "+" + Text.NatToString(n)
    ensures |caption| >= 2 && caption[0] == '+'
    ensures Text.DecimalValue(caption[1..]) == n
  {
    Text.DecimalRoundTrip(n);
    var digits := Text.NatToString(n);
    assert ("+" + digits)[1..] == digits;
    "+" + digits
  }

  /** What fills the card's image area. */
  datatype Media = Photo(src: string, alt: string) | Placeholder(initial: string)

  /** The image when `imageUrl` is truthy, with the title as alt text; otherwise
      the placeholder letter `title.charAt(0)`. */
  function CardMedia(p: Project): (m: Media)
    ensures m.Photo? <==> Truthy(p.imageUrl)
    ensures m.Photo? ==> m.src == p.imageUrl.value && m.alt == p.title
    ensures m.Placeholder? ==> |m.initial| <= 1 && (m.initial == "" <==> p.title == "")
    ensures m.Placeholder? && p.title != "" ==> m.initial[0] == p.title[0]
  {
    if Truthy(p.imageUrl) then Photo(p.imageUrl.value, p.title) else Placeholder(Text.FirstChar(p.title))
  }

  /** The content every portfolio card shows, whatever its layout: the link to
      the project page, the media, the status badge, title, description and
      the first three technologies. */
  datatype CardFace = CardFace(
    href: string,
    media: Media,
    statusClass: string,
    statusText: string,
    title: string,
    description: string,
    tech: TechPreview)

  /** The number of technologies a portfolio card shows. */
  const CARD_TECH_LIMIT: nat := 3

  /** The face of a portfolio card for `p`. */
  function Face(p: Project): (f: CardFace)
    ensures f.href == "/project/" + p.slug
    ensures f.title == p.title && f.description == p.description
    ensures f.media == CardMedia(p)
    ensures f.media.Placeholder? <==> !Truthy(p.imageUrl)
    ensures f.statusClass == StatusColor(p.status) && f.statusText == StatusLabel(p.status)
    ensures f.tech == Truncate(p.techStack, CARD_TECH_LIMIT)
    ensures f.statusClass == DEFAULT_STATUS_CLASS <==> p.status !in KNOWN_STATUSES
    ensures |f.statusText| == |p.status|
    ensures |f.tech.shown| <= CARD_TECH_LIMIT && |f.tech.shown| <= |p.techStack| && f.tech.shown == p.techStack[..|f.tech.shown|]
    ensures f.tech.overflow.Some? <==> |p.techStack| > CARD_TECH_LIMIT
    ensures |f.tech.shown| + (if f.tech.overflow.Some? then f.tech.overflow.value else 0) == |p.techStack|
  {
    CardFace("/project/" + p.slug, CardMedia(p), StatusColor(p.status), StatusLabel(p.status),
             p.title, p.description, Truncate(p.techStack, CARD_TECH_LIMIT))
  }
}
