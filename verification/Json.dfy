/** JSON values.  An object lists its fields in the order of iteration. */
module Json {
  datatype Value =
    | Null
    | Bool(flag: bool)
    | Number(text: string)
    | Str(chars: string)
    | Array(items: Items)
    | Object(fields: Fields)

  datatype Items = Nil | Item(head: Value, tail: Items)

  datatype Fields = End | Field(key: string, value: Value, rest: Fields)
}

/** What the router lets into its logs. */
module JsonLog {
  import opened Json

  const SENSITIVE := {"pan", "pin", "cvv", "password", "token", "secret", "encryptedPan", "encPan"}

  const MASK := Str("****")

  /** `sanitizeForLog`: a copy in which the sensitive fields are masked. */
  function Sanitized(body: Value): Value {
    match body
    case Object(fields) => Object(SanitizedFields(fields))
    case Array(items) => Array(SanitizedItems(items))
    case _ => body
  }

  function SanitizedItems(items: Items): Items {
    match items
    case Nil => Nil
    case Item(head, tail) => Item(Sanitized(head), SanitizedItems(tail))
  }

  function SanitizedFields(fields: Fields): Fields {
    match fields
    case End => End
    case Field(key, value, rest) =>
      Field(key, if key in SENSITIVE then MASK else Sanitized(value), SanitizedFields(rest))
  }

  /** Two bodies that differ under sensitive keys only. */
  predicate Alike(a: Value, b: Value) {
    if a.Object? && b.Object? then AlikeFields(a.fields, b.fields)
    else if a.Array? && b.Array? then AlikeItems(a.items, b.items)
    else a == b
  }

  predicate AlikeItems(a: Items, b: Items) {
    if a.Item? && b.Item? then Alike(a.head, b.head) && AlikeItems(a.tail, b.tail) else a == b
  }

  predicate AlikeFields(a: Fields, b: Fields) {
    if a.Field? && b.Field? then
      a.key == b.key && (a.key in SENSITIVE || Alike(a.value, b.value)) && AlikeFields(a.rest, b.rest)
    else a == b
  }

  /** The log tells two bodies apart iff they differ outside the sensitive
      fields: it hides those and nothing else. */
  lemma {:induction false} LogHidesExactlySecrets(a: Value, b: Value)
    ensures Sanitized(a) == Sanitized(b) <==> Alike(a, b)
  {
    if a.Object? && b.Object? {
      HidesInFields(a.fields, b.fields);
    } else if a.Array? && b.Array? {
      HidesInItems(a.items, b.items);
    }
  }

  lemma {:induction false} HidesInItems(a: Items, b: Items)
    ensures SanitizedItems(a) == SanitizedItems(b) <==> AlikeItems(a, b)
  {
    if a.Item? && b.Item? {
      LogHidesExactlySecrets(a.head, b.head);
      HidesInItems(a.tail, b.tail);
    }
  }

  lemma {:induction false} HidesInFields(a: Fields, b: Fields)
    ensures SanitizedFields(a) == SanitizedFields(b) <==> AlikeFields(a, b)
  {
    if a.Field? && b.Field? {
      LogHidesExactlySecrets(a.value, b.value);
      HidesInFields(a.rest, b.rest);
    }
  }

  /** No field at any depth has a sensitive key. */
  predicate Plain(body: Value) {
    match body
    case Object(fields) => PlainFields(fields)
    case Array(items) => PlainItems(items)
    case _ => true
  }

  predicate PlainItems(items: Items) {
    items.Item? ==> Plain(items.head) && PlainItems(items.tail)
  }

  predicate PlainFields(fields: Fields) {
    fields.Field? ==> fields.key !in SENSITIVE && Plain(fields.value) && PlainFields(fields.rest)
  }

  /** A body without sensitive fields is logged as it is. */
  lemma {:induction false} PlainIsLogged(body: Value)
    ensures Plain(body) ==> Sanitized(body) == body
  {
    match body
    case Object(fields) => PlainFieldsLogged(fields);
    case Array(items) => PlainItemsLogged(items);
    case _ =>
  }

  lemma {:induction false} PlainItemsLogged(items: Items)
    ensures PlainItems(items) ==> SanitizedItems(items) == items
  {
    if items.Item? {
      PlainIsLogged(items.head);
      PlainItemsLogged(items.tail);
    }
  }

  lemma {:induction false} PlainFieldsLogged(fields: Fields)
    ensures PlainFields(fields) ==> SanitizedFields(fields) == fields
  {
    if fields.Field? {
      PlainIsLogged(fields.value);
      PlainFieldsLogged(fields.rest);
    }
  }

  /** Every sensitive field at any depth holds four stars. */
  predicate Masked(line: Value) {
    match line
    case Object(fields) => MaskedFields(fields)
    case Array(items) => MaskedItems(items)
    case _ => true
  }

  predicate MaskedItems(items: Items) {
    items.Item? ==> Masked(items.head) && MaskedItems(items.tail)
  }

  predicate MaskedFields(fields: Fields) {
    fields.Field? ==>
      && (fields.key in {"pan", "pin", "cvv", "password", "token", "secret", "encryptedPan", "encPan"} ==>
            fields.value == Str("****"))
      && Masked(fields.value) && MaskedFields(fields.rest)
  }

  lemma {:induction false} SecretsAreMasked(body: Value)
    ensures Masked(Sanitized(body))
  {
    match body
    case Object(fields) => FieldsAreMasked(fields);
    case Array(items) => ItemsAreMasked(items);
    case _ =>
  }

  lemma {:induction false} ItemsAreMasked(items: Items)
    ensures MaskedItems(SanitizedItems(items))
  {
    if items.Item? {
      SecretsAreMasked(items.head);
      ItemsAreMasked(items.tail);
    }
  }

  lemma {:induction false} FieldsAreMasked(fields: Fields)
    ensures MaskedFields(SanitizedFields(fields))
  {
    if fields.Field? {
      SecretsAreMasked(fields.value);
      FieldsAreMasked(fields.rest);
    }
  }
}
