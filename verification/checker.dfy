/**
 The configuration checker: a tree of rules over the loaded JSON, the
 plugin's own tree of rules, and the typed validity condition it amounts to.
 A string rule bounds the length from below and from above (both inclusive),
 a boolean rule asks for a boolean, and an object rule asks for an object
 whose every listed key is present and passes its own rule.
 */
module ConfigChecker {
  import opened Wrappers
  import opened Settings

  datatype Json = JString(str: string) | JBool(flag: bool) | JObject(fields: map<string, Json>) | JOther

  datatype Rule =
    | StringRule(minLength: Option<nat>, maxLength: Option<nat>)
    | BooleanRule
    | ObjectRule(children: seq<Child>)

  /** A required key and the rule for its value. */
  datatype Child = Child(key: string, rule: Rule)

  datatype Problem =
    | Missing(path: seq<string>)
    | NotAString(path: seq<string>)
    | TooShort(path: seq<string>, minLength: nat)
    | TooLong(path: seq<string>, maxLength: nat)
    | NotABoolean(path: seq<string>)
    | NotAnObject(path: seq<string>)

  predicate Extends(path: seq<string>, prefix: seq<string>) {
    |prefix| <= |path| && path[..|prefix|] == prefix
  }

  /** The problems `v` has against `rule`, each reported at a path below `path`. */
  function Check(rule: Rule, v: Json, path: seq<string>): (r: seq<Problem>)
    decreases rule
    ensures forall i :: 0 <= i < |r| ==> Extends(r[i].path, path)
  {
    match rule
    case StringRule(minLength, maxLength) =>
      if !v.JString? then [NotAString(path)]
      else
        (if minLength.Some? && |v.str| < minLength.value then [TooShort(path, minLength.value)] else [])
        + (if maxLength.Some? && |v.str| > maxLength.value then [TooLong(path, maxLength.value)] else [])
    case BooleanRule =>
      if v.JBool? then [] else [NotABoolean(path)]
    case ObjectRule(children) =>
      if v.JObject? then CheckChildren(children, v.fields, path) else [NotAnObject(path)]
  }

  function CheckChildren(children: seq<Child>, fields: map<string, Json>, path: seq<string>): (r: seq<Problem>)
    decreases children
    ensures forall i :: 0 <= i < |r| ==> Extends(r[i].path, path)
  {
    if |children| == 0 then []
    else
      var key := children[0].key;
      var here :=
        if key in fields then Check(children[0].rule, fields[key], path + [key])
        else [Missing(path + [key])];
      assert forall i :: 0 <= i < |here| ==> Extends(here[i].path, path) by {
        forall i | 0 <= i < |here|
          ensures Extends(here[i].path, path)
        {
          assert Extends(here[i].path, path + [key]);
          assert (path + [key])[..|path|] == path;
        }
      }
      here + CheckChildren(children[1..], fields, path)
  }

  function MaxLength(n: nat): Rule {
    StringRule(None, Some(n))
  }

  const AnyString: Rule := StringRule(None, None)

  const AuthorStructure: Rule := ObjectRule([
    Child("name", MaxLength(256)),
    Child("icon", AnyString),
    Child("url", AnyString)])

  const EmbedStructure: Rule := ObjectRule([
    Child("author", AuthorStructure),
    Child("title", MaxLength(256)),
    Child("description", MaxLength(4096)),
    Child("color", MaxLength(7)),
    Child("thumbnail", AnyString),
    Child("image", AnyString),
    Child("footer", MaxLength(2048)),
    Child("timestamp", BooleanRule)])

  /** `welcomerConfigStructure`. */
  const WelcomerStructure: Rule := ObjectRule([
    Child("welcomeChannelId", StringRule(Some(15), None)),
    Child("testTitle", MaxLength(200)),
    Child("messageContent", MaxLength(2000)),
    Child("embed", EmbedStructure)])

  /** The JSON a configuration record is read from. */
  function AuthorJson(a: AuthorSettings): Json {
    JObject(map["name" := JString(a.name), "icon" := JString(a.icon), "url" := JString(a.url)])
  }

  function EmbedJson(e: EmbedSettings): Json {
    JObject(map[
      "author" := AuthorJson(e.author),
      "title" := JString(e.title),
      "description" := JString(e.description),
      "color" := JString(e.color),
      "thumbnail" := JString(e.thumbnail),
      "image" := JString(e.image),
      "footer" := JString(e.footer),
      "timestamp" := JBool(e.timestamp)])
  }

  function ConfigJson(c: Config): Json {
    JObject(map[
      "welcomeChannelId" := JString(c.welcomeChannelId),
      "testTitle" := JString(c.testTitle),
      "messageContent" := JString(c.messageContent),
      "embed" := EmbedJson(c.embed)])
  }

  /** The length limits of the configuration, field by field. */
  predicate ValidAuthor(a: AuthorSettings) {
    |a.name| <= 256
  }

  predicate ValidEmbed(e: EmbedSettings) {
    && ValidAuthor(e.author)
    && |e.title| <= 256
    && |e.description| <= 4096
    && |e.color| <= 7
    && |e.footer| <= 2048
  }

  predicate ValidConfig(c: Config) {
    && |c.welcomeChannelId| >= 15
    && |c.testTitle| <= 200
    && |c.messageContent| <= 2000
    && ValidEmbed(c.embed)
  }

  /** A listed key is present and its value passes the key's rule. */
  predicate ChildPasses(c: Child, fields: map<string, Json>, path: seq<string>) {
    c.key in fields && Check(c.rule, fields[c.key], path + [c.key]) == []
  }

  /** An object passes exactly when every one of its listed keys does. */
  lemma {:induction false} CheckChildrenClear(children: seq<Child>, fields: map<string, Json>, path: seq<string>)
    ensures CheckChildren(children, fields, path) == [] <==>
      forall i :: 0 <= i < |children| ==> ChildPasses(children[i], fields, path)
  {
    if |children| > 0 {
      CheckChildrenClear(children[1..], fields, path);
      assert forall i :: 1 <= i < |children| ==> children[i] == children[1..][i - 1];
    }
  }

  /** The children from index `k` on pass exactly when child `k` does and those after it do. */
  lemma CheckChildrenStep(children: seq<Child>, fields: map<string, Json>, path: seq<string>, k: nat)
    requires k < |children|
    ensures CheckChildren(children[k..], fields, path) == [] <==>
      ChildPasses(children[k], fields, path) && CheckChildren(children[k + 1..], fields, path) == []
  {
    assert children[k..][0] == children[k];
    assert children[k..][1..] == children[k + 1..];
  }

  /** The value under `key` when it is a string. */
  function StringField(fields: map<string, Json>, key: string): Option<string> {
    if key in fields && fields[key].JString? then Some(fields[key].str) else None
  }

  /** The value under `key` when it is a boolean. */
  function BoolField(fields: map<string, Json>, key: string): Option<bool> {
    if key in fields && fields[key].JBool? then Some(fields[key].flag) else None
  }

  /**
   Reading JSON into the typed records the renderer works on: `None` when a
   listed key is absent or holds a value of another kind. Keys that are not
   listed are ignored.
   */
  function ReadAuthor(j: Json): Option<AuthorSettings> {
    if !j.JObject? then None
    else
      var name := StringField(j.fields, "name");
      var icon := StringField(j.fields, "icon");
      var url := StringField(j.fields, "url");
      if name.Some? && icon.Some? && url.Some? then Some(AuthorSettings(name.value, icon.value, url.value))
      else None
  }

  function ReadEmbed(j: Json): Option<EmbedSettings> {
    if !j.JObject? || "author" !in j.fields then None
    else
      var author := ReadAuthor(j.fields["author"]);
      var title := StringField(j.fields, "title");
      var description := StringField(j.fields, "description");
      var color := StringField(j.fields, "color");
      var thumbnail := StringField(j.fields, "thumbnail");
      var image := StringField(j.fields, "image");
      var footer := StringField(j.fields, "footer");
      var timestamp := BoolField(j.fields, "timestamp");
      if && author.Some? && title.Some? && description.Some? && color.Some?
         && thumbnail.Some? && image.Some? && footer.Some? && timestamp.Some?
      then Some(EmbedSettings(color.value, title.value, description.value, footer.value,
                              thumbnail.value, image.value, timestamp.value, author.value))
      else None
  }

  function ReadConfig(j: Json): Option<Config> {
    if !j.JObject? || "embed" !in j.fields then None
    else
      var channelId := StringField(j.fields, "welcomeChannelId");
      var testTitle := StringField(j.fields, "testTitle");
      var content := StringField(j.fields, "messageContent");
      var embed := ReadEmbed(j.fields["embed"]);
      if channelId.Some? && testTitle.Some? && content.Some? && embed.Some?
      then Some(Config(channelId.value, testTitle.value, content.value, embed.value))
      else None
  }

  /** A key passes a string rule exactly when it holds a string whose length is within the bounds. */
  lemma StringChildPasses(key: string, minLength: Option<nat>, maxLength: Option<nat>, fields: map<string, Json>, path: seq<string>)
    ensures ChildPasses(Child(key, StringRule(minLength, maxLength)), fields, path) <==>
      && StringField(fields, key).Some?
      && (minLength.None? || |StringField(fields, key).value| >= minLength.value)
      && (maxLength.None? || |StringField(fields, key).value| <= maxLength.value)
  {
  }

  /** A key passes a boolean rule exactly when it holds a boolean. */
  lemma BooleanChildPasses(key: string, fields: map<string, Json>, path: seq<string>)
    ensures ChildPasses(Child(key, BooleanRule), fields, path) <==> BoolField(fields, key).Some?
  {
  }

  /** A value of the wrong kind is reported, whatever rule asks for another. */
  lemma WrongKindReported(rule: Rule, v: Json, path: seq<string>)
    ensures rule.StringRule? && !v.JString? ==> NotAString(path) in Check(rule, v, path)
    ensures rule.BooleanRule? && !v.JBool? ==> NotABoolean(path) in Check(rule, v, path)
    ensures rule.ObjectRule? && !v.JObject? ==> NotAnObject(path) in Check(rule, v, path)
  {
  }

  /** The author object passes exactly when it reads as an author whose name keeps its limit. */
  lemma AuthorAccepted(j: Json, path: seq<string>)
    ensures Check(AuthorStructure, j, path) == [] <==> ReadAuthor(j).Some? && ValidAuthor(ReadAuthor(j).value)
  {
    if j.JObject? {
      var cs := AuthorStructure.children;
      CheckChildrenClear(cs, j.fields, path);
      StringChildPasses("name", None, Some(256), j.fields, path);
      StringChildPasses("icon", None, None, j.fields, path);
      StringChildPasses("url", None, None, j.fields, path);
      var f := j.fields;
      assert cs == [Child("name", StringRule(None, Some(256))), Child("icon", AnyString), Child("url", AnyString)];
      assert (forall i :: 0 <= i < |cs| ==> ChildPasses(cs[i], f, path)) <==>
        ChildPasses(cs[0], f, path) && ChildPasses(cs[1], f, path) && ChildPasses(cs[2], f, path);
      assert ReadAuthor(j).Some? <==>
        StringField(f, "name").Some? && StringField(f, "icon").Some? && StringField(f, "url").Some?;
      assert ReadAuthor(j).Some? ==> ReadAuthor(j).value.name == StringField(f, "name").value;
    }
  }

  /** The first four embed keys: the author object, title, description and color. */
  lemma EmbedHeadAccepted(fields: map<string, Json>, path: seq<string>)
    ensures CheckChildren(EmbedStructure.children, fields, path) == [] <==>
      && "author" in fields && ReadAuthor(fields["author"]).Some? && ValidAuthor(ReadAuthor(fields["author"]).value)
      && StringField(fields, "title").Some? && |StringField(fields, "title").value| <= 256
      && StringField(fields, "description").Some? && |StringField(fields, "description").value| <= 4096
      && StringField(fields, "color").Some? && |StringField(fields, "color").value| <= 7
      && CheckChildren(EmbedStructure.children[4..], fields, path) == []
  {
    var cs := EmbedStructure.children;
    if "author" in fields {
      AuthorAccepted(fields["author"], path + ["author"]);
    }
    StringChildPasses("title", None, Some(256), fields, path);
    StringChildPasses("description", None, Some(4096), fields, path);
    StringChildPasses("color", None, Some(7), fields, path);
    assert cs[0..] == cs;
    CheckChildrenStep(cs, fields, path, 3);
    CheckChildrenStep(cs, fields, path, 2);
    CheckChildrenStep(cs, fields, path, 1);
    CheckChildrenStep(cs, fields, path, 0);
  }

  /** The last four embed keys: thumbnail, image, footer and the timestamp flag. */
  lemma EmbedTailAccepted(fields: map<string, Json>, path: seq<string>)
    ensures CheckChildren(EmbedStructure.children[4..], fields, path) == [] <==>
      && StringField(fields, "thumbnail").Some? && StringField(fields, "image").Some?
      && StringField(fields, "footer").Some? && |StringField(fields, "footer").value| <= 2048
      && BoolField(fields, "timestamp").Some?
  {
    var cs := EmbedStructure.children;
    StringChildPasses("thumbnail", None, None, fields, path);
    StringChildPasses("image", None, None, fields, path);
    StringChildPasses("footer", None, Some(2048), fields, path);
    BooleanChildPasses("timestamp", fields, path);
    assert CheckChildren(cs[8..], fields, path) == [];
    CheckChildrenStep(cs, fields, path, 7);
    CheckChildrenStep(cs, fields, path, 6);
    CheckChildrenStep(cs, fields, path, 5);
    CheckChildrenStep(cs, fields, path, 4);
  }

  /** The embed object passes exactly when it reads as an embed that keeps every limit. */
  lemma EmbedAccepted(j: Json, path: seq<string>)
    ensures Check(EmbedStructure, j, path) == [] <==> ReadEmbed(j).Some? && ValidEmbed(ReadEmbed(j).value)
  {
    if j.JObject? {
      EmbedHeadAccepted(j.fields, path);
      EmbedTailAccepted(j.fields, path);
    }
  }

  /** The four keys of the configuration: channel identifier, test title, content and embed. */
  lemma ConfigFieldsAccepted(fields: map<string, Json>, path: seq<string>)
    ensures CheckChildren(WelcomerStructure.children, fields, path) == [] <==>
      && StringField(fields, "welcomeChannelId").Some? && |StringField(fields, "welcomeChannelId").value| >= 15
      && StringField(fields, "testTitle").Some? && |StringField(fields, "testTitle").value| <= 200
      && StringField(fields, "messageContent").Some? && |StringField(fields, "messageContent").value| <= 2000
      && "embed" in fields && ReadEmbed(fields["embed"]).Some? && ValidEmbed(ReadEmbed(fields["embed"]).value)
  {
    var cs := WelcomerStructure.children;
    StringChildPasses("welcomeChannelId", Some(15), None, fields, path);
    StringChildPasses("testTitle", None, Some(200), fields, path);
    StringChildPasses("messageContent", None, Some(2000), fields, path);
    if "embed" in fields {
      EmbedAccepted(fields["embed"], path + ["embed"]);
    }
    assert CheckChildren(cs[4..], fields, path) == [];
    assert cs[0..] == cs;
    CheckChildrenStep(cs, fields, path, 3);
    CheckChildrenStep(cs, fields, path, 2);
    CheckChildrenStep(cs, fields, path, 1);
    CheckChildrenStep(cs, fields, path, 0);
  }

  /**
   Any JSON passes the checker exactly when it reads as a configuration that
   keeps every limit: a missing key, a value of the wrong kind or a length out
   of bounds anywhere in the tree is a problem.
   */
  lemma CheckerAcceptsExactlyReadable(j: Json)
    ensures Check(WelcomerStructure, j, []) == [] <==> ReadConfig(j).Some? && ValidConfig(ReadConfig(j).value)
  {
    if j.JObject? {
      ConfigFieldsAccepted(j.fields, []);
    }
  }

  /** Reading a record's own JSON gives the record back. */
  lemma ReadAuthorJson(a: AuthorSettings)
    ensures ReadAuthor(AuthorJson(a)) == Some(a)
  {
  }

  lemma ReadEmbedJson(e: EmbedSettings)
    ensures ReadEmbed(EmbedJson(e)) == Some(e)
  {
    ReadAuthorJson(e.author);
  }

  lemma ReadConfigJson(c: Config)
    ensures ReadConfig(ConfigJson(c)) == Some(c)
  {
    ReadEmbedJson(c.embed);
  }

  lemma AuthorCheckedExactly(a: AuthorSettings, path: seq<string>)
    ensures Check(AuthorStructure, AuthorJson(a), path) == [] <==> ValidAuthor(a)
  {
    AuthorAccepted(AuthorJson(a), path);
    ReadAuthorJson(a);
  }

  lemma EmbedCheckedExactly(e: EmbedSettings, path: seq<string>)
    ensures Check(EmbedStructure, EmbedJson(e), path) == [] <==> ValidEmbed(e)
  {
    EmbedAccepted(EmbedJson(e), path);
    ReadEmbedJson(e);
  }

  /**
   The checker finds no problem in a configuration's JSON exactly when the
   configuration keeps every length limit.
   */
  lemma CheckerAcceptsExactlyValid(c: Config)
    ensures Check(WelcomerStructure, ConfigJson(c), []) == [] <==> ValidConfig(c)
  {
    CheckerAcceptsExactlyReadable(ConfigJson(c));
    ReadConfigJson(c);
  }

  /** A timestamp that is not a boolean fails the check, as does an embed that is not an object. */
  lemma WrongEmbedKindsRejected(j: Json)
    requires j.JObject? && "embed" in j.fields
    ensures !j.fields["embed"].JObject? ==> Check(WelcomerStructure, j, []) != []
    ensures (j.fields["embed"].JObject? && "timestamp" in j.fields["embed"].fields
             && !j.fields["embed"].fields["timestamp"].JBool?)
      ==> Check(WelcomerStructure, j, []) != []
  {
    CheckerAcceptsExactlyReadable(j);
  }

  /** A listed key that is absent is reported, at its own path. */
  lemma {:induction false} MissingKeyReported(children: seq<Child>, fields: map<string, Json>, path: seq<string>, i: nat)
    requires i < |children|
    requires children[i].key !in fields
    ensures Missing(path + [children[i].key]) in CheckChildren(children, fields, path)
  {
    if i > 0 {
      MissingKeyReported(children[1..], fields, path, i - 1);
    }
  }

  /** A configuration without an `embed` object is reported as missing it. */
  lemma MissingEmbedReported(fields: map<string, Json>)
    requires "embed" !in fields
    ensures Missing(["embed"]) in Check(WelcomerStructure, JObject(fields), [])
  {
    MissingKeyReported(WelcomerStructure.children, fields, [], 3);
    assert [] + ["embed"] == ["embed"];
  }
}
