/** The Redis key strings of video-coordinate claims (src/event_handler.rs). A d-tag is any string,
    colons included; public keys are 64 characters of lower-case hex. */
module VideoKeys {

  /** Every notification type has its wire name. */
  datatype Kind = Like | Comment | Mention | Repost | DirectMessage | NewPost

  function DisplayName(k: Kind): (name: string)
    ensures ':' !in name && |name| < 64
  {
    match k
    case Like => "like"
    case Comment => "comment"
    case Mention => "mention"
    case Repost => "repost"
    case DirectMessage => "directMessage"
    case NewPost => "newPost"
  }

  lemma NamesDiffer(a: Kind, b: Kind)
    requires DisplayName(a) == DisplayName(b)
    ensures a == b
  {
    assert |DisplayName(a)| == |DisplayName(b)|;
    assert DisplayName(a)[0] == DisplayName(b)[0];
    assert |DisplayName(a)| > 2 && DisplayName(a)[2] == DisplayName(b)[2];
  }

  /** A public key in hex, as far as the key builders care: 64 characters, none a colon. */
  predicate IsPubkey(s: string) { |s| == 64 && ':' !in s }

  /** An event kind in decimal. */
  predicate IsKindNumber(s: string) { 0 < |s| < 64 && ':' !in s }

  const SEPARATOR := ":"

  function TypedKey(kind: string, t: Kind, author: string, dtag: string, recipient: string): string {
    kind + SEPARATOR + (DisplayName(t) + SEPARATOR + Tail(author, dtag, recipient))
  }

  function LegacyKey(kind: string, author: string, dtag: string, recipient: string): string {
    kind + SEPARATOR + Tail(author, dtag, recipient)
  }

  function Tail(author: string, dtag: string, recipient: string): string {
    author + SEPARATOR + (dtag + SEPARATOR + recipient)
  }

  /** The per-event claim of one recipient, kept under the same prefix. */
  function EventKey(eventId: string, recipient: string): string {
    eventId + SEPARATOR + recipient
  }

  // ---------- Reading a key back ----------

  /** What stands before the first separator is determined by the whole. */
  lemma HeadIsUnique(a: string, x: string, b: string, y: string)
    requires ':' !in a && ':' !in b && a + SEPARATOR + x == b + SEPARATOR + y
    ensures a == b && x == y
  {
    var s, t := a + SEPARATOR + x, b + SEPARATOR + y;
    assert s[|a|] == ':' && t[|b|] == ':';
    assert |a| == |b|;
    assert a == s[..|a|] == t[..|b|] == b;
    assert x == s[|a| + 1..] == t[|b| + 1..] == y;
  }

  /** Everything before the last 64 characters and their separator is the d-tag, whatever colons it
      has. */
  lemma LastIsUnique(x: string, a: string, y: string, b: string)
    requires |a| == |b| && x + SEPARATOR + a == y + SEPARATOR + b
    ensures x == y && a == b
  {
    var s, t := x + SEPARATOR + a, y + SEPARATOR + b;
    assert |x| == |y|;
    assert x == s[..|x|] == t[..|y|] == y;
    assert a == s[|x| + 1..] == t[|y| + 1..] == b;
  }

  lemma TailInjective(author: string, dtag: string, recipient: string, author': string, dtag': string,
      recipient': string)
    requires IsPubkey(author) && IsPubkey(recipient) && IsPubkey(author') && IsPubkey(recipient')
    requires Tail(author, dtag, recipient) == Tail(author', dtag', recipient')
    ensures author == author' && dtag == dtag' && recipient == recipient'
  {
    HeadIsUnique(author, dtag + SEPARATOR + recipient, author', dtag' + SEPARATOR + recipient');
    LastIsUnique(dtag, recipient, dtag', recipient');
  }

  /** Claim keys are injective in kind, type, author, d-tag and recipient. */
  lemma TypedKeyInjective(kind: string, t: Kind, author: string, dtag: string, recipient: string,
                          kind': string, t': Kind, author': string, dtag': string, recipient': string)
    requires IsKindNumber(kind) && IsPubkey(author) && IsPubkey(recipient)
    requires IsKindNumber(kind') && IsPubkey(author') && IsPubkey(recipient')
    requires TypedKey(kind, t, author, dtag, recipient) == TypedKey(kind', t', author', dtag', recipient')
    ensures kind == kind' && t == t' && author == author' && dtag == dtag' && recipient == recipient'
  {
    var rest, rest' := Tail(author, dtag, recipient), Tail(author', dtag', recipient');
    HeadIsUnique(kind, DisplayName(t) + SEPARATOR + rest, kind', DisplayName(t') + SEPARATOR + rest');
    HeadIsUnique(DisplayName(t), rest, DisplayName(t'), rest');
    NamesDiffer(t, t');
    TailInjective(author, dtag, recipient, author', dtag', recipient');
  }

  lemma LegacyKeyInjective(kind: string, author: string, dtag: string, recipient: string, kind': string,
      author': string, dtag': string, recipient': string)
    requires IsKindNumber(kind) && IsPubkey(author) && IsPubkey(recipient)
    requires IsKindNumber(kind') && IsPubkey(author') && IsPubkey(recipient')
    requires LegacyKey(kind, author, dtag, recipient) == LegacyKey(kind', author', dtag', recipient')
    ensures kind == kind' && author == author' && dtag == dtag' && recipient == recipient'
  {
    HeadIsUnique(kind, Tail(author, dtag, recipient), kind', Tail(author', dtag', recipient'));
    TailInjective(author, dtag, recipient, author', dtag', recipient');
  }

  /** A typed key never equals a legacy key, whatever the d-tags: a type name is shorter than a
      public key. */
  lemma TypedIsNotLegacy(kind: string, t: Kind, author: string, dtag: string, recipient: string,
                         kind': string, author': string, dtag': string, recipient': string)
    requires IsKindNumber(kind) && IsKindNumber(kind') && IsPubkey(author')
    ensures TypedKey(kind, t, author, dtag, recipient) != LegacyKey(kind', author', dtag', recipient')
  {
    if TypedKey(kind, t, author, dtag, recipient) == LegacyKey(kind', author', dtag', recipient') {
      var rest := Tail(author, dtag, recipient);
      HeadIsUnique(kind, DisplayName(t) + SEPARATOR + rest, kind', Tail(author', dtag', recipient'));
      HeadIsUnique(DisplayName(t), rest, author', dtag' + SEPARATOR + recipient');
    }
  }

  /** Neither ever equals a per-event claim: an event id is longer than a kind number. */
  lemma VideoIsNotEvent(kind: string, t: Kind, author: string, dtag: string, recipient: string, eventId: string,
      recipient': string)
    requires IsKindNumber(kind) && |eventId| == 64 && ':' !in eventId
    ensures TypedKey(kind, t, author, dtag, recipient) != EventKey(eventId, recipient')
    ensures LegacyKey(kind, author, dtag, recipient) != EventKey(eventId, recipient')
  {
    var rest := Tail(author, dtag, recipient);
    if TypedKey(kind, t, author, dtag, recipient) == EventKey(eventId, recipient') {
      HeadIsUnique(kind, DisplayName(t) + SEPARATOR + rest, eventId, recipient');
    }
    if LegacyKey(kind, author, dtag, recipient) == EventKey(eventId, recipient') {
      HeadIsUnique(kind, rest, eventId, recipient');
    }
  }
}
