/** What the audit log keeps of its metadata: values under sensitive keys are redacted at any depth. */
module AuditSanitizer {
  import opened Wrappers
  import opened Text

  datatype Json =
    | Null
    | Bool(flag: bool)
    | Number(digits: string)
    | Text(text: string)
    | Array(items: seq<Json>)
    | Object(fields: seq<Field>)

  datatype Field = Field(key: string, value: Json)

  const REDACTED := Text("[REDACTED]")

  predicate IsSensitiveKey(key: string) {
    var normalized := ToAsciiLower(key);
    || Contains(normalized, "password") || Contains(normalized, "secret") || Contains(normalized, "token")
    || Contains(normalized, "authorization") || Contains(normalized, "payout_reference")
    || Contains(normalized, "provider_reference")
    || normalized == "external_reference" || normalized == "decision_notes" || normalized == "review_notes"
  }

  function Sanitize(value: Json): Json {
    match value
    case Object(fields) =>
      Object(seq(|fields|, i requires 0 <= i < |fields| =>
        Field(fields[i].key, if IsSensitiveKey(fields[i].key) then REDACTED else Sanitize(fields[i].value))))
    case Array(items) => Array(seq(|items|, i requires 0 <= i < |items| => Sanitize(items[i])))
    case _ => value
  }

  // ---------------------------------------------------------------- where a value sits

  /** One step into a value: the field at a position, or the array element at one. */
  datatype Step = Into(field: nat) | At(item: nat)

  function Child(value: Json, step: Step): Option<Json> {
    match step
    case Into(i) => if value.Object? && i < |value.fields| then Some(value.fields[i].value) else None
    case At(i) => if value.Array? && i < |value.items| then Some(value.items[i]) else None
  }

  function Lookup(value: Json, path: seq<Step>): Option<Json> {
    if path == [] then Some(value)
    else match Child(value, path[0])
      case None => None
      case Some(child) => Lookup(child, path[1..])
  }

  /** The step enters the value of a sensitive key. */
  predicate EntersSecret(value: Json, step: Step) {
    value.Object? && step.Into? && step.field < |value.fields| && IsSensitiveKey(value.fields[step.field].key)
  }

  /** How many steps a path takes up to and with its first sensitive key; `None` without one. */
  function SecretDepth(value: Json, path: seq<Step>): Option<nat> {
    if path == [] then None
    else match Child(value, path[0])
      case None => None
      case Some(child) =>
        if EntersSecret(value, path[0]) then Some(1)
        else match SecretDepth(child, path[1..])
          case None => None
          case Some(depth) => Some(depth + 1)
  }

  /** Every place of a sanitised value: a secret reads as the redaction mark with nothing below it,
      and everywhere else the value is the sanitised original, at the same place. */
  lemma {:induction false} SanitizedPlaces(value: Json, path: seq<Step>)
    ensures Lookup(Sanitize(value), path)
      == match SecretDepth(value, path)
         case Some(depth) => if depth == |path| then Some(REDACTED) else None
         case None => (match Lookup(value, path) case None => None case Some(place) => Some(Sanitize(place)))
    decreases |path|
  {
    if path != [] {
      var child := Child(value, path[0]);
      if child.Some? {
        if EntersSecret(value, path[0]) {
          assert Child(Sanitize(value), path[0]) == Some(REDACTED);
        } else {
          SanitizedPlaces(child.value, path[1..]);
        }
      }
    }
  }

  function Keys(value: Json): seq<string>
    requires value.Object?
  {
    seq(|value.fields|, i requires 0 <= i < |value.fields| => value.fields[i].key)
  }

  /** Keys and array lengths outside redacted values stay as they were. */
  lemma SanitizedShape(value: Json, path: seq<Step>)
    requires SecretDepth(value, path).None? && Lookup(value, path).Some?
    ensures Lookup(Sanitize(value), path).Some?
    ensures var before := Lookup(value, path).value;
      var after := Lookup(Sanitize(value), path).value;
      && (before.Object? ==> after.Object? && Keys(after) == Keys(before))
      && (before.Array? ==> after.Array? && |after.items| == |before.items|)
      && (!before.Object? && !before.Array? ==> after == before)
  {
    SanitizedPlaces(value, path);
  }

  // ---------------------------------------------------------------- laws

  /** Every sensitive key, at any depth, already holds the redaction mark. */
  predicate Clean(value: Json) {
    match value
    case Object(fields) =>
      forall i | 0 <= i < |fields| ::
        if IsSensitiveKey(fields[i].key) then fields[i].value == REDACTED else Clean(fields[i].value)
    case Array(items) => forall i | 0 <= i < |items| :: Clean(items[i])
    case _ => true
  }

  predicate HasSensitiveKey(value: Json) {
    match value
    case Object(fields) =>
      exists i | 0 <= i < |fields| :: IsSensitiveKey(fields[i].key) || HasSensitiveKey(fields[i].value)
    case Array(items) => exists i | 0 <= i < |items| :: HasSensitiveKey(items[i])
    case _ => false
  }

  /** No sensitive key is left unredacted at any depth. */
  lemma {:induction false} SanitizedIsClean(value: Json)
    ensures Clean(Sanitize(value))
  {
    match value
    case Object(fields) =>
      forall i | 0 <= i < |fields|
        ensures Clean(Sanitize(fields[i].value))
      {
        SanitizedIsClean(fields[i].value);
      }
    case Array(items) =>
      forall i | 0 <= i < |items|
        ensures Clean(Sanitize(items[i]))
      {
        SanitizedIsClean(items[i]);
      }
    case _ =>
  }

  /** Sanitising changes a value exactly when some sensitive key is not redacted yet. */
  lemma {:induction false} IdentityIffClean(value: Json)
    ensures Sanitize(value) == value <==> Clean(value)
  {
    match value
    case Object(fields) =>
      var out := Sanitize(value).fields;
      forall i | 0 <= i < |fields|
        ensures Sanitize(fields[i].value) == fields[i].value <==> Clean(fields[i].value)
      {
        IdentityIffClean(fields[i].value);
      }
      assert out == fields <==> forall i | 0 <= i < |fields| :: out[i] == fields[i];
    case Array(items) =>
      var out := Sanitize(value).items;
      forall i | 0 <= i < |items|
        ensures Sanitize(items[i]) == items[i] <==> Clean(items[i])
      {
        IdentityIffClean(items[i]);
      }
      assert out == items <==> forall i | 0 <= i < |items| :: out[i] == items[i];
    case _ =>
  }

  lemma {:induction false} SanitizeIsIdempotent(value: Json)
    ensures Sanitize(Sanitize(value)) == Sanitize(value)
  {
    SanitizedIsClean(value);
    IdentityIffClean(Sanitize(value));
  }

  lemma {:induction false} WithoutSensitiveKeysIsClean(value: Json)
    requires !HasSensitiveKey(value)
    ensures Clean(value)
  {
    match value
    case Object(fields) =>
      forall i | 0 <= i < |fields|
        ensures Clean(fields[i].value)
      {
        WithoutSensitiveKeysIsClean(fields[i].value);
      }
    case Array(items) =>
      forall i | 0 <= i < |items|
        ensures Clean(items[i])
      {
        WithoutSensitiveKeysIsClean(items[i]);
      }
    case _ =>
  }

  lemma {:induction false} IdentityWithoutSensitiveKeys(value: Json)
    requires !HasSensitiveKey(value)
    ensures Sanitize(value) == value
  {
    WithoutSensitiveKeysIsClean(value);
    IdentityIffClean(value);
  }

  /** Two values differ at most below sensitive keys. */
  predicate SameOutsideSecrets(value: Json, other: Json) {
    match value
    case Object(fields) =>
      && other.Object? && |fields| == |other.fields|
      && forall i | 0 <= i < |fields| :: SameField(fields[i], other.fields[i])
    case Array(items) =>
      other.Array? && |items| == |other.items| && forall i | 0 <= i < |items| ::
        SameOutsideSecrets(items[i], other.items[i])
    case _ => other == value
  }

  predicate SameField(field: Field, other: Field) {
    field.key == other.key && (IsSensitiveKey(field.key) || SameOutsideSecrets(field.value, other.value))
  }

  /** The log cannot tell two values apart exactly when they differ only below sensitive keys. */
  lemma {:induction false} HidesExactlySecrets(value: Json, other: Json)
    ensures Sanitize(value) == Sanitize(other) <==> SameOutsideSecrets(value, other)
  {
    match value
    case Object(fields) =>
      if other.Object? && |fields| == |other.fields| {
        var out, back := Sanitize(value).fields, Sanitize(other).fields;
        forall i | 0 <= i < |fields|
          ensures out[i] == back[i] <==> SameField(fields[i], other.fields[i])
        {
          HidesExactlySecrets(fields[i].value, other.fields[i].value);
        }
        assert out == back <==> forall i | 0 <= i < |fields| :: out[i] == back[i];
        assert SameOutsideSecrets(value, other)
          <==> forall i | 0 <= i < |fields| :: SameField(fields[i], other.fields[i]);
      } else if other.Object? {
        assert |Sanitize(value).fields| != |Sanitize(other).fields|;
      }
    case Array(items) =>
      if other.Array? && |items| == |other.items| {
        var out, back := Sanitize(value).items, Sanitize(other).items;
        forall i | 0 <= i < |items|
          ensures out[i] == back[i] <==> SameOutsideSecrets(items[i], other.items[i])
        {
          HidesExactlySecrets(items[i], other.items[i]);
        }
        assert out == back <==> forall i | 0 <= i < |items| :: out[i] == back[i];
        assert SameOutsideSecrets(value, other)
          <==> forall i | 0 <= i < |items| :: SameOutsideSecrets(items[i], other.items[i]);
      } else if other.Array? {
        assert |Sanitize(value).items| != |Sanitize(other).items|;
      }
    case _ =>
  }

  // ---------------------------------------------------------------- a payout review's metadata

  /** The metadata of a payout review's audit row. */
  function ReviewMetadata(vault: string, milestone: string, school: string, verification: string, from: string,
    to: string, notesPresent: bool, referencePresent: bool): Json
  {
    Object([
      Field("vault_id", Text(vault)), Field("milestone_id", Text(milestone)), Field("school_id", Text(school)),
      Field("school_verification_status", Text(verification)),
      Field("from_status", Text(from)), Field("to_status", Text(to)),
      Field("review_notes_present", Bool(notesPresent)),
      Field("external_payout_reference_present", Bool(referencePresent))])
  }

  lemma LowerIsItself(text: string)
    requires NoCapitals(text)
    ensures ToAsciiLower(text) == text
  {
    forall i | 0 <= i < |text|
      ensures ToAsciiLower(text)[i] == text[i]
    {
      assert text[i] in text;
    }
  }

  lemma AroundReference(before: string, after: string)
    requires NoCapitals(before) && NoCapitals(after)
    ensures IsSensitiveKey(before + "payout_reference" + after)
  {
    var key := before + "payout_reference" + after;
    LowerIsItself(key);
    assert OccursAt(key, "payout_reference", |before|);
  }

  lemma ReferenceFlagIsSensitive()
    ensures IsSensitiveKey("external_payout_reference_present")
  {
    assert "external_payout_reference_present" == "external_" + "payout_reference" + "_present";
    AroundReference("external_", "_present");
  }

  /** The flag that says whether a reference was given never reaches the log: its key contains
      "payout_reference", so both answers are logged alike. */
  lemma ReferenceFlagIsHidden(vault: string, milestone: string, school: string, verification: string, from: string,
    to: string, notes: bool)
    ensures Sanitize(ReviewMetadata(vault, milestone, school, verification, from, to, notes, true))
      == Sanitize(ReviewMetadata(vault, milestone, school, verification, from, to, notes, false))
  {
    ReferenceFlagIsSensitive();
    HidesExactlySecrets(ReviewMetadata(vault, milestone, school, verification, from, to, notes, true),
      ReviewMetadata(vault, milestone, school, verification, from, to, notes, false));
  }

  lemma LacksLetter(text: string, part: string, c: char)
    requires c in part && c !in text
    ensures !Contains(text, part)
  {
  }

  /** A key without the letters e, h and p is never sensitive. */
  lemma PlainKeyIsKept(key: string)
    requires NoCapitals(key) && 'e' !in key && 'h' !in key && 'p' !in key
    ensures !IsSensitiveKey(key)
  {
    LowerIsItself(key);
    LacksLetter(key, "password", "password"[0]);
    LacksLetter(key, "secret", "secret"[1]);
    LacksLetter(key, "token", "token"[3]);
    LacksLetter(key, "authorization", "authorization"[3]);
    LacksLetter(key, "payout_reference", "payout_reference"[0]);
    LacksLetter(key, "provider_reference", "provider_reference"[0]);
    assert "external_reference"[0] == 'e' && "decision_notes"[1] == 'e' && "review_notes"[1] == 'e';
  }

  /** The two statuses, which the audit trail is replayed from, are logged as they are. */
  lemma StatusesAreKept(metadata: Json, i: nat)
    requires metadata.Object? && i < |metadata.fields| && metadata.fields[i].value.Text?
    requires metadata.fields[i].key == "from_status" || metadata.fields[i].key == "to_status"
    ensures Sanitize(metadata).fields[i] == metadata.fields[i]
  {
    PlainKeyIsKept(metadata.fields[i].key);
  }

  // ---------------------------------------------------------------- which keys are sensitive

  /** The key has one of six words in it, or is one of three names, in any letter case. */
  predicate NamesSecret(key: string) {
    || Mentions(key, "password") || Mentions(key, "secret") || Mentions(key, "token")
    || Mentions(key, "authorization") || Mentions(key, "payout_reference") || Mentions(key, "provider_reference")
    || Spells(key, "external_reference") || Spells(key, "decision_notes") || Spells(key, "review_notes")
  }

  lemma CredentialWordsFound(key: string)
    ensures Contains(ToAsciiLower(key), "password") <==> Mentions(key, "password")
    ensures Contains(ToAsciiLower(key), "secret") <==> Mentions(key, "secret")
    ensures Contains(ToAsciiLower(key), "token") <==> Mentions(key, "token")
  {
    ContainsIff(key, "password");
    ContainsIff(key, "secret");
    ContainsIff(key, "token");
  }

  lemma ReferenceWordsFound(key: string)
    ensures Contains(ToAsciiLower(key), "authorization") <==> Mentions(key, "authorization")
    ensures Contains(ToAsciiLower(key), "payout_reference") <==> Mentions(key, "payout_reference")
    ensures Contains(ToAsciiLower(key), "provider_reference") <==> Mentions(key, "provider_reference")
  {
    ContainsIff(key, "authorization");
    ContainsIff(key, "payout_reference");
    ContainsIff(key, "provider_reference");
  }

  lemma NamesSpelled(key: string)
    ensures ToAsciiLower(key) == "external_reference" <==> Spells(key, "external_reference")
    ensures ToAsciiLower(key) == "decision_notes" <==> Spells(key, "decision_notes")
    ensures ToAsciiLower(key) == "review_notes" <==> Spells(key, "review_notes")
  {
    LowersIff(key, "external_reference");
    LowersIff(key, "decision_notes");
    LowersIff(key, "review_notes");
  }

  /** Exactly those keys are sensitive. */
  lemma SensitiveIff(key: string)
    ensures IsSensitiveKey(key) <==> NamesSecret(key)
  {
    CredentialWordsFound(key);
    ReferenceWordsFound(key);
    NamesSpelled(key);
  }

  /** The value of such a key is replaced, whatever it holds, and that of any other field of the object
      is sanitised in turn. */
  lemma FieldIsRedactedIff(metadata: Json, i: nat)
    requires metadata.Object? && i < |metadata.fields|
    ensures var key := metadata.fields[i].key;
      && Sanitize(metadata).Object? && |Sanitize(metadata).fields| == |metadata.fields|
      && Sanitize(metadata).fields[i]
           == Field(key, if NamesSecret(key) then Text("[REDACTED]") else Sanitize(metadata.fields[i].value))
  {
    SensitiveIff(metadata.fields[i].key);
  }
}
