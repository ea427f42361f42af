/** The embed builder: the record describing a Discord embed (title, colour,
  * author, footer, a list of name/value fields, ...) and the list of mentions
  * sent with it.
  */
module Embeds {
  import opened Seqs

  datatype EmbedField = EmbedField(id: string, name: string, value: string, inline: bool)

  datatype Author = Author(name: string, iconUrl: string, url: string)

  datatype Footer = Footer(text: string, iconUrl: string)

  datatype EmbedData = EmbedData(
    title: string,
    description: string,
    color: string,
    thumbnail: string,
    image: string,
    author: Author,
    footer: Footer,
    fields: seq<EmbedField>,
    timestamp: bool)

  /** A value handed to an update handler: a string from an input, or the
    * state of a switch. */
  datatype Input = Str(s: string) | Bool(b: bool)

  /** The top-level keys `updateEmbedData` is called with. */
  datatype EmbedKey = Title | Description | Color | Thumbnail | Image | Timestamp

  /** The (parent, field) pairs of `updateNestedField`: the author's name, icon
    * and link, and the footer's text and icon. */
  datatype NestedKey = AuthorName | AuthorIconUrl | AuthorUrl | FooterText | FooterIconUrl

  /** The properties `updateField` is called with. */
  datatype FieldProperty = Name | Value | Inline

  /** The initial embed: empty strings, the Discord blurple colour, no fields,
    * no timestamp. */
  const InitialEmbed: EmbedData :=
    EmbedData("", "", "#5865F2", "", "", Author("", "", ""), Footer("", ""), [], false)

  // ---------------------------------------------------------------- top-level fields

  /** The value's kind matches the key's declared type: a switch for
    * `timestamp`, a string for the others. */
  predicate Fits(key: EmbedKey, v: Input)
  {
    v.Bool? <==> key == Timestamp
  }

  /** Reads one top-level field. */
  function Get(e: EmbedData, key: EmbedKey): (v: Input)
    ensures Fits(key, v)
  {
    match key
    case Title => Str(e.title)
    case Description => Str(e.description)
    case Color => Str(e.color)
    case Thumbnail => Str(e.thumbnail)
    case Image => Str(e.image)
    case Timestamp => Bool(e.timestamp)
  }

  /** `{ ...prev, [key]: v }`: the embed after `updateEmbedData(key, v)`. */
  function SetField(e: EmbedData, key: EmbedKey, v: Input): EmbedData
    requires Fits(key, v)
  {
    match key
    case Title => e.(title := v.s)
    case Description => e.(description := v.s)
    case Color => e.(color := v.s)
    case Thumbnail => e.(thumbnail := v.s)
    case Image => e.(image := v.s)
    case Timestamp => e.(timestamp := v.b)
  }

  /** `updateEmbedData` stores the value under its key, leaves every other key
    * as it was, and never touches the author, the footer or the fields. */
  lemma SetFieldSpec(e: EmbedData, key: EmbedKey, v: Input)
    requires Fits(key, v)
    ensures Get(SetField(e, key, v), key) == v
    ensures forall k :: k != key ==> Get(SetField(e, key, v), k) == Get(e, k)
    ensures SetField(e, key, v).author == e.author
    ensures SetField(e, key, v).footer == e.footer
    ensures SetField(e, key, v).fields == e.fields
  {
  }

  /** Writing back the value a key already holds changes nothing. */
  lemma SetFieldToOwnValue(e: EmbedData, key: EmbedKey)
    ensures SetField(e, key, Get(e, key)) == e
  {
  }

  // ---------------------------------------------------------------- author and footer

  /** Reads one sub-field of the author or the footer. */
  function GetNested(e: EmbedData, key: NestedKey): string
  {
    match key
    case AuthorName => e.author.name
    case AuthorIconUrl => e.author.iconUrl
    case AuthorUrl => e.author.url
    case FooterText => e.footer.text
    case FooterIconUrl => e.footer.iconUrl
  }

  predicate IsAuthorKey(key: NestedKey)
  {
    key == AuthorName || key == AuthorIconUrl || key == AuthorUrl
  }

  /** The embed after `updateNestedField(parent, field, value)`: the parent
    * record is copied with the one sub-field replaced. */
  function SetNested(e: EmbedData, key: NestedKey, value: string): EmbedData
  {
    match key
    case AuthorName => e.(author := e.author.(name := value))
    case AuthorIconUrl => e.(author := e.author.(iconUrl := value))
    case AuthorUrl => e.(author := e.author.(url := value))
    case FooterText => e.(footer := e.footer.(text := value))
    case FooterIconUrl => e.(footer := e.footer.(iconUrl := value))
  }

  /** `updateNestedField` stores the value in its sub-field, keeps every other
    * sub-field of both records, keeps the other record whole, and changes no
    * other part of the embed. */
  lemma SetNestedSpec(e: EmbedData, key: NestedKey, value: string)
    ensures GetNested(SetNested(e, key, value), key) == value
    ensures forall k :: k != key ==> GetNested(SetNested(e, key, value), k) == GetNested(e, k)
    ensures IsAuthorKey(key) ==> SetNested(e, key, value).footer == e.footer
    ensures !IsAuthorKey(key) ==> SetNested(e, key, value).author == e.author
    ensures SetNested(e, key, value).(author := e.author, footer := e.footer) == e
  {
  }

  // ---------------------------------------------------------------- the field list

  /** The value's kind matches the property: a switch for `inline`, a string
    * for `name` and `value`. */
  predicate FitsProperty(prop: FieldProperty, v: Input)
  {
    v.Bool? <==> prop == Inline
  }

  function GetProperty(f: EmbedField, prop: FieldProperty): (v: Input)
    ensures FitsProperty(prop, v)
  {
    match prop
    case Name => Str(f.name)
    case Value => Str(f.value)
    case Inline => Bool(f.inline)
  }

  /** `{ ...field, [prop]: v }`. */
  function SetProperty(f: EmbedField, prop: FieldProperty, v: Input): EmbedField
    requires FitsProperty(prop, v)
  {
    match prop
    case Name => f.(name := v.s)
    case Value => f.(value := v.s)
    case Inline => f.(inline := v.b)
  }

  /** Writing a property stores the value there and leaves the id and the
    * other properties as they were. */
  lemma SetPropertySpec(f: EmbedField, prop: FieldProperty, v: Input)
    requires FitsProperty(prop, v)
    ensures GetProperty(SetProperty(f, prop, v), prop) == v
    ensures SetProperty(f, prop, v).id == f.id
    ensures forall q :: q != prop ==> GetProperty(SetProperty(f, prop, v), q) == GetProperty(f, q)
  {
  }

  /** The field `addField` appends. */
  function NewField(id: string): EmbedField
  {
    EmbedField(id, "", "", false)
  }

  function FieldHasId(id: string): EmbedField -> bool
  {
    (f: EmbedField) => f.id == id
  }

  function OtherField(id: string): EmbedField -> bool
  {
    (f: EmbedField) => f.id != id
  }

  function FieldId(): EmbedField -> string
  {
    (f: EmbedField) => f.id
  }

  function WithProperty(prop: FieldProperty, v: Input): EmbedField -> EmbedField
    requires FitsProperty(prop, v)
  {
    (f: EmbedField) => SetProperty(f, prop, v)
  }

  /** The fields after `updateField(id, prop, v)`. */
  function UpdateFields(fs: seq<EmbedField>, id: string, prop: FieldProperty, v: Input): seq<EmbedField>
    requires FitsProperty(prop, v)
  {
    MapWhere(fs, FieldHasId(id), WithProperty(prop, v))
  }

  /** The fields after `removeField(id)`. */
  function RemoveFieldFrom(fs: seq<EmbedField>, id: string): seq<EmbedField>
  {
    Filter(fs, OtherField(id))
  }

  /** `updateField` keeps the length and order of the list, changes only the
    * fields with that id, and of those only the named property (never the id). */
  lemma UpdateFieldsSpec(fs: seq<EmbedField>, id: string, prop: FieldProperty, v: Input)
    requires FitsProperty(prop, v)
    ensures |UpdateFields(fs, id, prop, v)| == |fs|
    ensures forall i :: 0 <= i < |fs| && fs[i].id != id ==> UpdateFields(fs, id, prop, v)[i] == fs[i]
    ensures forall i :: 0 <= i < |fs| && fs[i].id == id ==>
      && UpdateFields(fs, id, prop, v)[i].id == id
      && GetProperty(UpdateFields(fs, id, prop, v)[i], prop) == v
      && forall p :: p != prop ==> GetProperty(UpdateFields(fs, id, prop, v)[i], p) == GetProperty(fs[i], p)
  {
    MapWhereAt(fs, FieldHasId(id), WithProperty(prop, v));
  }

  /** `removeField` drops exactly the fields with that id and keeps the rest in
    * order; an unknown id changes nothing. */
  lemma RemoveFieldSpec(fs: seq<EmbedField>, id: string)
    ensures forall f :: f in RemoveFieldFrom(fs, id) <==> f in fs && f.id != id
    ensures IsSubsequence(RemoveFieldFrom(fs, id), fs)
    ensures forall f: EmbedField :: f.id != id ==> multiset(RemoveFieldFrom(fs, id))[f] == multiset(fs)[f]
    ensures (forall f :: f in fs ==> f.id != id) ==> RemoveFieldFrom(fs, id) == fs
  {
    FilterMembers(fs, OtherField(id));
    FilterIsSubsequence(fs, OtherField(id));
    forall f: EmbedField | f.id != id ensures multiset(RemoveFieldFrom(fs, id))[f] == multiset(fs)[f] {
      FilterKeepsCount(fs, OtherField(id), f);
    }
    if forall f :: f in fs ==> f.id != id {
      FilterAllKept(fs, OtherField(id));
    }
  }

  /** Removing a field that was just added restores the list, when its id was new. */
  lemma AddThenRemoveField(fs: seq<EmbedField>, id: string)
    requires forall f :: f in fs ==> f.id != id
    ensures RemoveFieldFrom(fs + [NewField(id)], id) == fs
  {
    FilterAppend(fs, [NewField(id)], OtherField(id));
    RemoveFieldSpec(fs, id);
    assert [NewField(id)][1..] == [];
  }

  // ---------------------------------------------------------------- mentions

  /** The mentions after `addMention(m)`: appended only when absent. */
  function AddMentionTo(ms: seq<string>, m: string): seq<string>
  {
    if m in ms then ms else ms + [m]
  }

  /** The mentions after the mention button: removed when present, added otherwise. */
  function ToggleMention(ms: seq<string>, m: string): seq<string>
  {
    if m in ms then RemoveAll(ms, m) else AddMentionTo(ms, m)
  }

  /** `addMention` never creates a duplicate: it appends an absent mention and
    * otherwise changes nothing. */
  lemma AddMentionSpec(ms: seq<string>, m: string)
    ensures m in AddMentionTo(ms, m)
    ensures m in ms ==> AddMentionTo(ms, m) == ms
    ensures m !in ms ==> AddMentionTo(ms, m) == ms + [m]
    ensures NoDup(ms) ==> NoDup(AddMentionTo(ms, m))
  {
    if NoDup(ms) && m !in ms {
      AppendNoDup(ms, m);
    }
  }

  /** Adding an absent mention and removing it again restores the list. */
  lemma AddThenRemoveMention(ms: seq<string>, m: string)
    requires m !in ms
    ensures RemoveAll(AddMentionTo(ms, m), m) == ms
  {
    AppendThenRemove(ms, m);
  }

  /** The mention button flips whether the mention is present, keeps the list
    * duplicate-free, and never touches another mention's presence. */
  lemma ToggleMentionSpec(ms: seq<string>, m: string)
    ensures m in ToggleMention(ms, m) <==> m !in ms
    ensures forall x :: x != m ==> (x in ToggleMention(ms, m) <==> x in ms)
    ensures NoDup(ms) ==> NoDup(ToggleMention(ms, m))
  {
    RemoveAllSpec(ms, m);
    AddMentionSpec(ms, m);
    if NoDup(ms) && m in ms {
      FilterNoDup(ms, Unequal(m));
    }
  }

  /** Pressing the button of an absent mention twice restores the list. */
  lemma ToggleMentionTwice(ms: seq<string>, m: string)
    requires m !in ms
    ensures ToggleMention(ToggleMention(ms, m), m) == ms
  {
    AppendThenRemove(ms, m);
  }

  /** For a mention already present, two presses move it to the end. */
  lemma ToggleMentionTwiceReorders()
    ensures ToggleMention(ToggleMention(["@here", "@everyone"], "@here"), "@here") == ["@everyone", "@here"]
  {
    var ms := ["@here", "@everyone"];
    RemoveAllSpec(ms, "@here");
    assert RemoveAll(ms, "@here") == ["@everyone"] by {
      assert ms[1..] == ["@everyone"];
      assert ms[1..][1..] == [];
    }
  }

  // ---------------------------------------------------------------- the component

  class EmbedBuilder {
    var embedData: EmbedData
    var mentions: seq<string>
    var selectedChannel: string
    var messageContent: string

    /** Mentions never repeat; field ids are distinct because each comes from
      * a new clock reading. */
    ghost predicate Valid()
      reads this
    {
      NoDup(mentions) && DistinctBy(embedData.fields, FieldId())
    }

    constructor ()
      ensures Valid()
      ensures embedData == InitialEmbed && mentions == [] && selectedChannel == "" && messageContent == ""
    {
      embedData := InitialEmbed;
      mentions := [];
      selectedChannel := "";
      messageContent := "";
    }

    /** `updateEmbedData(field, value)`. */
    method UpdateEmbedData(field: EmbedKey, value: Input)
      requires Valid()
      requires Fits(field, value)
      modifies this
      ensures Valid()
      ensures embedData == SetField(old(embedData), field, value)
      ensures mentions == old(mentions) && selectedChannel == old(selectedChannel)
      ensures messageContent == old(messageContent)
    {
      embedData := SetField(embedData, field, value);
    }

    /** `updateNestedField(parent, field, value)`. */
    method UpdateNestedField(key: NestedKey, value: string)
      requires Valid()
      modifies this
      ensures Valid()
      ensures embedData == SetNested(old(embedData), key, value)
      ensures mentions == old(mentions) && selectedChannel == old(selectedChannel)
      ensures messageContent == old(messageContent)
    {
      embedData := SetNested(embedData, key, value);
    }

    /** `addField`; `id` stands for `Date.now().toString()`, taken to be new. */
    method AddField(id: string)
      requires Valid()
      requires forall f :: f in embedData.fields ==> f.id != id
      modifies this
      ensures Valid()
      ensures embedData == old(embedData).(fields := old(embedData).fields + [NewField(id)])
      ensures mentions == old(mentions) && selectedChannel == old(selectedChannel)
      ensures messageContent == old(messageContent)
    {
      AppendDistinctBy(embedData.fields, NewField(id), FieldId());
      embedData := embedData.(fields := embedData.fields + [NewField(id)]);
    }

    /** `updateField(fieldId, property, value)`. */
    method UpdateField(fieldId: string, property: FieldProperty, value: Input)
      requires Valid()
      requires FitsProperty(property, value)
      modifies this
      ensures Valid()
      ensures embedData == old(embedData).(fields := UpdateFields(old(embedData).fields, fieldId, property, value))
      ensures mentions == old(mentions) && selectedChannel == old(selectedChannel)
      ensures messageContent == old(messageContent)
    {
      MapWhereDistinctBy(embedData.fields, FieldHasId(fieldId), WithProperty(property, value), FieldId());
      embedData := embedData.(fields := UpdateFields(embedData.fields, fieldId, property, value));
    }

    /** `removeField(fieldId)`. */
    method RemoveField(fieldId: string)
      requires Valid()
      modifies this
      ensures Valid()
      ensures embedData == old(embedData).(fields := RemoveFieldFrom(old(embedData).fields, fieldId))
      ensures mentions == old(mentions) && selectedChannel == old(selectedChannel)
      ensures messageContent == old(messageContent)
    {
      FilterDistinctBy(embedData.fields, OtherField(fieldId), FieldId());
      embedData := embedData.(fields := RemoveFieldFrom(embedData.fields, fieldId));
    }

    /** `addMention(mentionType)`. */
    method AddMention(mentionType: string)
      requires Valid()
      modifies this
      ensures Valid()
      ensures mentions == AddMentionTo(old(mentions), mentionType)
      ensures embedData == old(embedData) && selectedChannel == old(selectedChannel)
      ensures messageContent == old(messageContent)
    {
      AddMentionSpec(mentions, mentionType);
      if mentionType !in mentions {
        mentions := mentions + [mentionType];
      }
    }

    /** `removeMention(mentionType)`: also the X on a mention badge. */
    method RemoveMention(mentionType: string)
      requires Valid()
      modifies this
      ensures Valid()
      ensures mentions == RemoveAll(old(mentions), mentionType)
      ensures embedData == old(embedData) && selectedChannel == old(selectedChannel)
      ensures messageContent == old(messageContent)
    {
      FilterNoDup(mentions, Unequal(mentionType));
      mentions := RemoveAll(mentions, mentionType);
    }

    /** The Add / Added button beside a mention type. */
    method MentionButton(mentionType: string)
      requires Valid()
      modifies this
      ensures Valid()
      ensures mentions == ToggleMention(old(mentions), mentionType)
      ensures embedData == old(embedData) && selectedChannel == old(selectedChannel)
      ensures messageContent == old(messageContent)
    {
      if mentionType in mentions {
        RemoveMention(mentionType);
      } else {
        AddMention(mentionType);
      }
    }

    /** Typing into the message content box. */
    method SetMessageContent(text: string)
      requires Valid()
      modifies this
      ensures Valid()
      ensures messageContent == text
      ensures embedData == old(embedData) && mentions == old(mentions) && selectedChannel == old(selectedChannel)
    {
      messageContent := text;
    }

    /** Picking the target channel. */
    method SetSelectedChannel(channel: string)
      requires Valid()
      modifies this
      ensures Valid()
      ensures selectedChannel == channel
      ensures embedData == old(embedData) && mentions == old(mentions) && messageContent == old(messageContent)
    {
      selectedChannel := channel;
    }
  }
}
