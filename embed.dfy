/**
 * The display object `send_rich_message` builds from its JSON payload. Every
 * key is optional and falls back to a default on its own: a missing key, a
 * value of the wrong kind, a payload that is not an object and a payload that
 * did not parse all give the default, and never reject the message.
 */
module RichEmbed {
  import opened Base
  import opened Payload

  /** One entry of the embed's field list. */
  datatype Field = Field(name: string, value: string, inline: bool)

  /** The embed, without its timestamp (the clock is not modelled). */
  datatype Embed = Embed(
    title: string,
    description: string,
    image: string,
    footer: string,
    thumbnail: string,
    author: string,
    color: U64,
    fields: seq<Field>)

  /** The embed of a payload that carries nothing usable. */
  const DefaultEmbed := Embed("", "", "", "", "", "", 0, [])

  /** s is the string bound to key in v, or "" when key holds no string. */
  ghost predicate TextOr(v: Json, key: string, s: string)
  {
    Binds(v, key, JStr(s)) || (s == "" && forall x :: Binds(v, key, x) ==> !x.JStr?)
  }

  /** n is the unsigned 64-bit integer bound to key in v, or 0 when key holds none. */
  ghost predicate UIntOr(v: Json, key: string, n: U64)
  {
    Binds(v, key, JUInt(n)) || (n == 0 && forall x :: Binds(v, key, x) ==> !x.JUInt?)
  }

  /** b is the boolean bound to key in v, or false when key holds none. */
  ghost predicate FlagOr(v: Json, key: string, b: bool)
  {
    Binds(v, key, JBool(b)) || (!b && forall x :: Binds(v, key, x) ==> !x.JBool?)
  }

  /** a is the array bound to key in v, or empty when key holds none. */
  ghost predicate ItemsOr(v: Json, key: string, a: seq<Json>)
  {
    Binds(v, key, JArr(a)) || (a == [] && forall x :: Binds(v, key, x) ==> !x.JArr?)
  }

  /** `get(key).and_then(as_str).unwrap_or("")` */
  function TextAt(v: Json, key: string): (s: string)
    ensures TextOr(v, key, s)
  {
    match Get(v, key)
    case Some(JStr(s)) => s
    case _ => ""
  }

  /** `get(key).and_then(as_u64).unwrap_or(0)` */
  function UIntAt(v: Json, key: string): (n: U64)
    ensures UIntOr(v, key, n)
  {
    match Get(v, key)
    case Some(JUInt(n)) => n
    case _ => 0
  }

  /** `get(key).and_then(as_bool).unwrap_or(false)` */
  function FlagAt(v: Json, key: string): (b: bool)
    ensures FlagOr(v, key, b)
  {
    match Get(v, key)
    case Some(JBool(b)) => b
    case _ => false
  }

  /** `get(key).and_then(as_array).unwrap_or(&Vec::new())` */
  function ItemsAt(v: Json, key: string): (a: seq<Json>)
    ensures ItemsOr(v, key, a)
  {
    match Get(v, key)
    case Some(JArr(a)) => a
    case _ => []
  }

  /** One element of the `fields` array as (name, value, inline). */
  function FieldOf(e: Json): (f: Field)
    ensures TextOr(e, "name", f.name) && TextOr(e, "value", f.value)
    ensures FlagOr(e, "inline", f.inline)
    ensures !e.JObj? ==> f == Field("", "", false)
  {
    Field(TextAt(e, "name"), TextAt(e, "value"), FlagAt(e, "inline"))
  }

  /** The field list: one entry per element of the `fields` array, in order. */
  function FieldsOf(items: seq<Json>): (fs: seq<Field>)
    ensures |fs| == |items|
    ensures forall i :: 0 <= i < |items| ==> fs[i] == FieldOf(items[i])
  {
    seq(|items|, i requires 0 <= i < |items| => FieldOf(items[i]))
  }

  /** The embed `send_rich_message` builds from the payload value v. */
  function BuildEmbed(v: Json): (r: Embed)
    ensures TextOr(v, "title", r.title) && TextOr(v, "description", r.description)
    ensures TextOr(v, "image", r.image) && TextOr(v, "footer", r.footer)
    ensures TextOr(v, "thumbnail", r.thumbnail) && TextOr(v, "author", r.author)
    ensures UIntOr(v, "color", r.color)
    ensures |r.fields| == |ItemsAt(v, "fields")|
    ensures forall i :: 0 <= i < |r.fields| ==> r.fields[i] == FieldOf(ItemsAt(v, "fields")[i])
  {
    Embed(
      title := TextAt(v, "title"),
      description := TextAt(v, "description"),
      image := TextAt(v, "image"),
      footer := TextAt(v, "footer"),
      thumbnail := TextAt(v, "thumbnail"),
      author := TextAt(v, "author"),
      color := UIntAt(v, "color"),
      fields := FieldsOf(ItemsAt(v, "fields")))
  }

  /** The defaults are fully determined: each TextOr/UIntOr/FlagOr/ItemsOr admits exactly one value. */
  lemma DefaultsAreUnique(v: Json, key: string, s: string, t: string, m: U64, n: U64,
                          b: bool, c: bool, xs: seq<Json>, ys: seq<Json>)
    requires TextOr(v, key, s) && TextOr(v, key, t)
    requires UIntOr(v, key, m) && UIntOr(v, key, n)
    requires FlagOr(v, key, b) && FlagOr(v, key, c)
    requires ItemsOr(v, key, xs) && ItemsOr(v, key, ys)
    ensures s == t && m == n && b == c && xs == ys
  {
    BindingIsUnique(v, key);
  }

  /** A key is bound to at most one value. */
  lemma BindingIsUnique(v: Json, key: string)
    ensures forall x, y :: Binds(v, key, x) && Binds(v, key, y) ==> x == y
  {
    var r := Get(v, key);
  }

  /** A payload that is not an object, or that did not parse, gives the all-default embed. */
  lemma NonObjectPayload(v: Json)
    requires !v.JObj?
    ensures BuildEmbed(v) == DefaultEmbed
    ensures BuildEmbed(PayloadValue(None)) == DefaultEmbed
  {
  }

  /** `{"title":"T"}`: title T, every other entry at its default. */
  lemma TitleOnlyPayload()
    ensures BuildEmbed(JObj([("title", JStr("T"))])) == DefaultEmbed.(title := "T")
  {
    var v := JObj([("title", JStr("T"))]);
    assert Get(v, "title") == Some(JStr("T"));
    assert "description"[0] != 't' && "image"[0] != 't' && "footer"[0] != 't';
    assert "thumbnail"[1] != "title"[1] && "author"[0] != 't' && "color"[0] != 't';
    assert "fields"[0] != 't';
    assert Get(v, "description").None? && Get(v, "image").None? && Get(v, "footer").None?;
    assert Get(v, "thumbnail").None? && Get(v, "author").None?;
    assert Get(v, "color").None? && Get(v, "fields").None?;
  }

  /** A field entry without `inline` is not inline; one that is not an object is all defaults. */
  lemma FieldWithoutInline(name: string, value: string)
    ensures FieldOf(JObj([("name", JStr(name)), ("value", JStr(value))])) == Field(name, value, false)
    ensures FieldOf(JStr(name)) == Field("", "", false)
  {
    var e := JObj([("name", JStr(name)), ("value", JStr(value))]);
    assert "value" != "name" && "inline" != "name" && "inline" != "value" by {
      assert "value"[0] != "name"[0] && "inline"[0] != "name"[0] && "inline"[0] != "value"[0];
    }
    assert Binds(e, "name", JStr(name)) by {
      assert e.members[0] == ("name", JStr(name)) && e.members[1].0 == "value";
    }
    assert Get(e, "value") == Some(JStr(value));
    assert Get(e, "inline").None?;
  }
}
