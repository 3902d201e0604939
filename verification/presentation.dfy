/**
 * `PresentationLink` and `presentationDestination`: a registry, keyed by the
 * presented value's type, of the presentation slots the destination modifiers
 * own; the merge the environment setter performs; what activating a link does
 * to the slots; and which presenter a requested style resolves to.
 *
 * Views, bindings and the environment become values: a modifier's `@State`
 * item is a numbered slot in `Slots`, and a registration records the slot its
 * binding refers to. The destination view builder is not modelled.
 */
module Presentation {
  import opened Wrappers

  // ---------------------------------------------------------------------------
  // Styles
  // ---------------------------------------------------------------------------

  /** `PresentationStyle`: what a destination asks for. */
  datatype Style = Sheet | FullScreenCover

  /** The default of `presentationDestination`'s `style` parameter. */
  const DefaultStyle: Style := Sheet

  datatype OS = IOS | TVOS | MacOS | WatchOS

  /** The platform the modifier is built for and the major version it runs on. */
  datatype Platform = Platform(os: OS, major: nat)

  /** The style `PresentationModifier.body` actually presents with: a full-screen
      cover only where the platform has one (iOS and tvOS, from version 14 on),
      a sheet everywhere else. */
  function ResolvedStyle(style: Style, platform: Platform): (presented: Style)
    ensures presented == FullScreenCover <==>
      style == FullScreenCover && (platform.os == IOS || platform.os == TVOS) && platform.major >= 14
    ensures style == Sheet ==> presented == Sheet
  {
    match style
    case Sheet => Sheet
    case FullScreenCover =>
      if platform.os == IOS || platform.os == TVOS then
        if platform.major >= 14 then FullScreenCover else Sheet
      else
        Sheet
  }

  /** A destination that does not ask for a style is presented as a sheet on
      every platform. */
  lemma DefaultStyleIsSheet(platform: Platform)
    ensures ResolvedStyle(DefaultStyle, platform) == Sheet
  {
  }

  // ---------------------------------------------------------------------------
  // Type keys and type-erased values
  // ---------------------------------------------------------------------------

  /** A Swift type, by identity (`ObjectIdentifier`). */
  type TypeId = nat

  /** `AnyMetaType`: a registry key wrapping a type. */
  datatype MetaType = MetaType(tag: TypeId)

  /** `AnyMetaType.==`: the wrapped types are the same type. */
  predicate SameType(a: MetaType, b: MetaType)
  {
    a.tag == b.tag
  }

  /** `AnyMetaType.hash(into:)`: the hasher is fed the type's identity. */
  function Hash(a: MetaType): TypeId
  {
    a.tag
  }

  /** Keys are equal exactly when they wrap the same type, and equal keys hash
      alike, so the dictionary finds an entry by the type alone. */
  lemma KeyEquality(a: MetaType, b: MetaType)
    ensures SameType(a, b) <==> a == b
    ensures SameType(a, b) ==> Hash(a) == Hash(b)
  {
  }

  /** A value of an `Identifiable` type: the type, the identity `id` returns, and
      everything else about the value. */
  datatype Item = Item(tag: TypeId, id: int, payload: int)

  /** `AnyIdentifiable`: the value with its identity lifted out. */
  datatype AnyIdentifiable = AnyIdentifiable(id: int, value: Item)

  /** `AnyIdentifiable.init(_:)`: keeps the value and its identity. */
  function Wrap(value: Item): (r: AnyIdentifiable)
    ensures r.id == value.id && r.value == value
  {
    AnyIdentifiable(value.id, value)
  }

  // ---------------------------------------------------------------------------
  // Registry
  // ---------------------------------------------------------------------------

  /** A modifier's `@State` item, by number. */
  type SlotId = nat

  /** `Presentation`: the binding of the registering modifier's item. */
  datatype Presentation = Presentation(slot: SlotId)

  /** The `presentationDestinations` environment value. */
  type Registry = map<MetaType, Presentation>

  /** The modifiers' items. */
  type Slots = map<SlotId, Option<AnyIdentifiable>>

  /** `PresentationDestinationsEnvironmentKey.defaultValue`: nothing registered. */
  const DefaultRegistry: Registry := map[]

  /** What the registry holds after the setter: inherited entries, with those
      of the types in the new value replaced. */
  function Merged(current: Registry, newValue: Registry): (r: Registry)
    ensures r.Keys == current.Keys + newValue.Keys
    ensures forall t :: t in newValue ==> r[t] == newValue[t]
    ensures forall t :: t in current && t !in newValue ==> r[t] == current[t]
  {
    current + newValue
  }

  /** The `presentationDestinations` setter: starting from the inherited
      registry, stores every entry of the new value one key at a time. */
  method MergeDestinations(current: Registry, newValue: Registry) returns (r: Registry)
    ensures r == Merged(current, newValue)
    ensures forall t :: t in r <==> t in current || t in newValue
    ensures forall t :: t in newValue ==> r[t] == newValue[t]
    ensures forall t :: t in current && t !in newValue ==> r[t] == current[t]
  {
    r := current;
    var pending := newValue.Keys;
    while pending != {}
      invariant pending <= newValue.Keys
      invariant forall t :: t in r <==> t in current || (t in newValue && t !in pending)
      invariant forall t :: t in newValue && t !in pending ==> r[t] == newValue[t]
      invariant forall t :: t in current && !(t in newValue && t !in pending) ==> r[t] == current[t]
      decreases pending
    {
      var t :| t in pending;
      r := r[t := newValue[t]];
      pending := pending - {t};
    }
    assert r.Keys == Merged(current, newValue).Keys;
  }

  /** The environment a `presentationDestination(for:)` modifier gives its
      content: the outer registry with this modifier's type bound to its item. */
  function Register(outer: Registry, tag: TypeId, slot: SlotId): (r: Registry)
    ensures MetaType(tag) in r && r[MetaType(tag)] == Presentation(slot)
    ensures forall t :: t != MetaType(tag) ==> (t in r <==> t in outer)
    ensures forall t :: t in outer && t != MetaType(tag) ==> r[t] == outer[t]
  {
    Merged(outer, map[MetaType(tag) := Presentation(slot)])
  }

  /** A stack of destination modifiers, outermost first. */
  datatype Registration = Registration(tag: TypeId, slot: SlotId)

  function RegisterAll(outer: Registry, stack: seq<Registration>): Registry
    decreases |stack|
  {
    if |stack| == 0 then outer
    else
      var inner := stack[|stack| - 1];
      Register(RegisterAll(outer, stack[..|stack| - 1]), inner.tag, inner.slot)
  }

  /** The innermost registration of a type in a stack, if any. */
  function Innermost(stack: seq<Registration>, tag: TypeId): (r: Option<SlotId>)
    ensures r.Some? ==> exists i :: 0 <= i < |stack| && stack[i] == Registration(tag, r.value)
    ensures r.None? ==> forall i :: 0 <= i < |stack| ==> stack[i].tag != tag
    decreases |stack|
  {
    if |stack| == 0 then None
    else if stack[|stack| - 1].tag == tag then Some(stack[|stack| - 1].slot)
    else
      var r := Innermost(stack[..|stack| - 1], tag);
      assert forall i :: 0 <= i < |stack| - 1 ==> stack[..|stack| - 1][i] == stack[i];
      r
  }

  /** Shadowing is per type: under any stack of destination modifiers, a link
      finds the innermost registration of its own type, and an outer entry only
      when no modifier in the stack registers that type. */
  lemma {:induction false} InnermostWins(outer: Registry, stack: seq<Registration>, tag: TypeId)
    ensures var r := RegisterAll(outer, stack);
      match Innermost(stack, tag)
      case Some(slot) => MetaType(tag) in r && r[MetaType(tag)] == Presentation(slot)
      case None =>
        (MetaType(tag) in r <==> MetaType(tag) in outer)
        && (MetaType(tag) in outer ==> r[MetaType(tag)] == outer[MetaType(tag)])
    decreases |stack|
  {
    if |stack| > 0 {
      InnermostWins(outer, stack[..|stack| - 1], tag);
    }
  }

  // ---------------------------------------------------------------------------
  // Links
  // ---------------------------------------------------------------------------

  /** `PresentationLink`: the wrapped value (nil disables the link) and the
      static type it presents. */
  datatype Link = Link(value: Option<AnyIdentifiable>, valueType: MetaType)

  /** The three initialisers: the optional value is wrapped, the key is the
      value's declared type. */
  function MakeLink(tag: TypeId, value: Option<Item>): (link: Link)
    ensures link.valueType == MetaType(tag)
    ensures link.value.None? <==> value.None?
    ensures value.Some? ==> link.value.value.id == value.value.id && link.value.value.value == value.value
  {
    match value
    case None => Link(None, MetaType(tag))
    case Some(v) => Link(Some(Wrap(v)), MetaType(tag))
  }

  /** `.disabled(value == nil)`. */
  predicate Disabled(link: Link)
  {
    link.value.None?
  }

  /** A link built from a value is enabled, one built from `nil` is disabled. */
  lemma DisabledExactlyWithoutValue(tag: TypeId, value: Option<Item>)
    ensures Disabled(MakeLink(tag, value)) <==> value.None?
  {
  }

  /** The link's `binding`: the registered item, or a constant nil. */
  function Binding(registry: Registry, slots: Slots, link: Link): (b: Option<AnyIdentifiable>)
    ensures link.valueType !in registry ==> b.None?
    ensures link.valueType in registry && registry[link.valueType].slot in slots ==>
      b == slots[registry[link.valueType].slot]
  {
    if link.valueType in registry then
      var slot := registry[link.valueType].slot;
      if slot in slots then slots[slot] else None
    else
      None
  }

  /** What pressing a link leaves behind: the items, and the type reported
      when no destination was found. */
  datatype Outcome = Outcome(slots: Slots, missingDestination: Option<MetaType>)

  /** Pressing the link's button. A disabled button does not run its action;
      otherwise the value is written into the registered item, or, when the
      type has no destination, nothing changes and the type is reported. */
  function Activate(registry: Registry, slots: Slots, link: Link): (o: Outcome)
    ensures Disabled(link) ==> o == Outcome(slots, None)
    ensures !Disabled(link) && link.valueType in registry ==>
      o.missingDestination.None?
      && o.slots.Keys == slots.Keys + {registry[link.valueType].slot}
      && o.slots[registry[link.valueType].slot] == link.value
    ensures !Disabled(link) && link.valueType !in registry ==>
      o == Outcome(slots, Some(link.valueType))
  {
    if Disabled(link) then Outcome(slots, None)
    else if link.valueType in registry then
      Outcome(slots[registry[link.valueType].slot := link.value], None)
    else
      Outcome(slots, Some(link.valueType))
  }

  /** Activation touches only the item of the link's own registration. */
  lemma ActivateChangesOneSlot(registry: Registry, slots: Slots, link: Link, other: SlotId)
    requires link.valueType !in registry || other != registry[link.valueType].slot
    ensures other in Activate(registry, slots, link).slots <==> other in slots
    ensures other in slots ==> Activate(registry, slots, link).slots[other] == slots[other]
  {
  }

  /** After an enabled link is pressed under a registration of its type, its
      binding reads back the link's value; without one, it stays nil. */
  lemma ActivateThenBinding(registry: Registry, slots: Slots, link: Link)
    requires !Disabled(link)
    ensures var o := Activate(registry, slots, link);
      Binding(registry, o.slots, link) == (if link.valueType in registry then link.value else None)
  {
  }

  /** Pressing a link inside a stack of destination modifiers presents its
      value through the innermost modifier registered for its type and leaves
      every other modifier's item alone. */
  lemma ActivateInStack(stack: seq<Registration>, slots: Slots, link: Link, other: SlotId)
    requires !Disabled(link)
    requires Innermost(stack, link.valueType.tag).Some?
    requires other != Innermost(stack, link.valueType.tag).value
    ensures var o := Activate(RegisterAll(DefaultRegistry, stack), slots, link);
      && o.missingDestination.None?
      && Innermost(stack, link.valueType.tag).value in o.slots
      && o.slots[Innermost(stack, link.valueType.tag).value] == link.value
      && (other in o.slots <==> other in slots)
      && (other in slots ==> o.slots[other] == slots[other])
  {
    InnermostWins(DefaultRegistry, stack, link.valueType.tag);
  }

  /** With no destination modifier around it, an enabled link only reports the
      missing destination. */
  lemma ActivateWithoutDestination(slots: Slots, link: Link)
    requires !Disabled(link)
    ensures Activate(DefaultRegistry, slots, link) == Outcome(slots, Some(link.valueType))
    ensures Binding(DefaultRegistry, slots, link).None?
  {
  }
}
