/**
 * The fixed vocabularies of the task board: the five zones a task can sit in
 * (the ZONES array) and the five tags with their display metadata (the TAGS
 * object), together with the string spellings the page stores and receives.
 */
module Vocab {
  import opened Wrappers

  datatype Zone = Unassigned | Do | Schedule | Delegate | Eliminate

  datatype Tag = Light | Deep | Open | Learning | Planning

  /** What the badge of a task card shows for its tag. */
  datatype TagMeta = TagMeta(name: string, className: string)

  /** The zones in the order the board renders them. */
  const Zones: seq<Zone> := [Unassigned, Do, Schedule, Delegate, Eliminate]

  /** The tags in the order the TAGS object declares them. */
  const Tags: seq<Tag> := [Light, Deep, Open, Learning, Planning]

  function ZoneName(z: Zone): string {
    match z
    case Unassigned => "unassigned"
    case Do => "do"
    case Schedule => "schedule"
    case Delegate => "delegate"
    case Eliminate => "eliminate"
  }

  function TagName(t: Tag): string {
    match t
    case Light => "light"
    case Deep => "deep"
    case Open => "open"
    case Learning => "learning"
    case Planning => "planning"
  }

  function Meta(t: Tag): TagMeta {
    match t
    case Light => TagMeta("Light Build", "tag-light")
    case Deep => TagMeta("Deep Build", "tag-deep")
    case Open => TagMeta("Open", "tag-open")
    case Learning => TagMeta("Learning", "tag-learning")
    case Planning => TagMeta("Planning", "tag-planning")
  }

  /** `ZONES.includes(s)`: the zone spelled `s`, if any. */
  function ParseZone(s: string): (r: Option<Zone>)
    ensures forall z: Zone :: r == Some(z) <==> s == ZoneName(z)
  {
    if s == "unassigned" then Some(Unassigned)
    else if s == "do" then Some(Do)
    else if s == "schedule" then Some(Schedule)
    else if s == "delegate" then Some(Delegate)
    else if s == "eliminate" then Some(Eliminate)
    else None
  }

  /** The own keys of the TAGS object: the tag spelled `s`, if any. */
  function ParseTag(s: string): (r: Option<Tag>)
    ensures forall t: Tag :: r == Some(t) <==> s == TagName(t)
  {
    if s == "light" then Some(Light)
    else if s == "deep" then Some(Deep)
    else if s == "open" then Some(Open)
    else if s == "learning" then Some(Learning)
    else if s == "planning" then Some(Planning)
    else None
  }

  /** The tag a new task gets for the selector value `s`: `s` itself when it names a tag, else light. */
  function TagOrLight(s: string): (r: Tag)
    ensures TagName(r) == s || (r == Light && forall t: Tag :: TagName(t) != s)
  {
    match ParseTag(s)
    case Some(t) => t
    case None => Light
  }

  /**
   * `TAGS[key] || TAGS.light` as written: the badge of a tag name, light's for
   * a key the object does not have, and none for an inherited key, where the
   * lookup yields an Object.prototype member with no label or class name.
   */
  function BadgeFor(key: string): (r: Option<TagMeta>)
    ensures forall t: Tag :: key == TagName(t) ==> r == Some(Meta(t))
    ensures !TagsLookupTruthy(key) ==> r == Some(Meta(Light))
    ensures key in InheritedKeys ==> r.None?
  {
    match ParseTag(key)
    case Some(t) => Some(Meta(t))
    case None => if key in InheritedKeys then None else Some(Meta(Light))
  }

  /** The badge lookup as intended: the badge of a tag name, light's for any other key. */
  function BadgeOrLight(key: string): (r: TagMeta)
    ensures forall t: Tag :: key == TagName(t) ==> r == Meta(t)
    ensures (forall t: Tag :: key != TagName(t)) ==> r == Meta(Light)
  {
    Meta(TagOrLight(key))
  }

  /** As written, a card for the tag "toString" gets no badge; the intended lookup gives light's. */
  lemma BadgeForInheritedKey()
    ensures BadgeFor("toString").None? && BadgeOrLight("toString") == Meta(Light)
  {
    assert "toString" in InheritedKeys;
  }

  /** The two badge lookups agree on every key the TAGS object does not inherit. */
  lemma BadgeOrLightAgrees(key: string)
    ensures key !in InheritedKeys ==> BadgeFor(key) == Some(BadgeOrLight(key))
    ensures key in InheritedKeys ==> BadgeFor(key) != Some(BadgeOrLight(key))
  {
  }

  // The TAGS object as JavaScript evaluates `TAGS[key]`: besides the five own
  // keys, every property inherited from Object.prototype is found and is truthy.

  /** The property names a plain object literal inherits from Object.prototype. */
  const InheritedKeys: set<string> := {
    "constructor", "hasOwnProperty", "isPrototypeOf", "propertyIsEnumerable",
    "toLocaleString", "toString", "valueOf", "__proto__",
    "__defineGetter__", "__defineSetter__", "__lookupGetter__", "__lookupSetter__"
  }

  /** Whether `TAGS[key]` is truthy in JavaScript. */
  predicate TagsLookupTruthy(key: string)
    ensures forall t: Tag :: key == TagName(t) ==> TagsLookupTruthy(key)
    ensures key !in InheritedKeys ==> (TagsLookupTruthy(key) <==> ParseTag(key).Some?)
  {
    ParseTag(key).Some? || key in InheritedKeys
  }

  /** `TAGS[tag] ? tag : "light"` as the add handler writes it, on the string it stores. */
  function AddTagAsWritten(tag: string): (r: string)
    ensures r == tag || r == "light"
  {
    if TagsLookupTruthy(tag) then tag else "light"
  }

  /** The lookup as written lets an inherited key through as the stored tag, which is not a tag name. */
  lemma AddTagAsWrittenKeepsInheritedKey()
    ensures AddTagAsWritten("toString") == "toString"
    ensures forall t: Tag :: TagName(t) != AddTagAsWritten("toString")
  {
    assert "toString" in InheritedKeys;
  }

  /** The corrected lookup agrees with the written one exactly on the keys the TAGS object does not inherit. */
  lemma TagOrLightIsAddTagOnOwnKeys(s: string)
    ensures s !in InheritedKeys ==> TagName(TagOrLight(s)) == AddTagAsWritten(s)
    ensures s in InheritedKeys ==> TagName(TagOrLight(s)) != AddTagAsWritten(s)
  {
  }
}
