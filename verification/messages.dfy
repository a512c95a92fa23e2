/**
 The messages the plugin sends: the test reply of the `/welcome test`
 command, the reply of `/welcome reload`, and the greeting posted when a
 member joins.
 */
module Messages {
  import opened Wrappers
  import opened Strings
  import opened Replace
  import opened Template
  import opened Settings
  import opened Embeds

  /** Where a build was requested from: the slash command or anywhere else. */
  datatype Source = Slash | Other

  datatype Message = Message(content: string, embeds: seq<Embed>, ephemeral: bool)

  const ReloadSucceeded: string := ['\U{2705}'] + " **ESE-Welcomer configuration successfully reloaded!**"
  const ReloadFailed: string := ['\U{274C}'] + " **An error occurred while reloading.** Check the console."

  /**
   The test reply: the test title and the message content glued together with
   no separator, the two tokens substituted in the glued text, the welcome
   embed attached, and visible only to the caller when built for the slash
   command.
   */
  function TestMessage(cfg: Config, m: Member, source: Source): (r: Message)
    ensures r.embeds == [BuildEmbed(cfg, m)]
    ensures r.ephemeral <==> source == Slash
    ensures !Occurs(cfg.testTitle + cfg.messageContent, UserToken) && !Occurs(cfg.testTitle + cfg.messageContent, ServerToken)
      ==> r.content == cfg.testTitle + cfg.messageContent
    ensures !Occurs(cfg.testTitle + cfg.messageContent, UserToken)
      ==> r.content == RenderServer(cfg.testTitle + cfg.messageContent, m.guildName)
  {
    assert OrElse(cfg.messageContent, "") == cfg.messageContent;
    Message(Render(cfg.testTitle + OrElse(cfg.messageContent, ""), m.mention, m.guildName), [BuildEmbed(cfg, m)], source == Slash)
  }

  /** The greeting sent on a member join: the message content alone, and the welcome embed. */
  function JoinMessage(cfg: Config, m: Member): (r: Message)
    ensures r.embeds == [BuildEmbed(cfg, m)]
    ensures !r.ephemeral
    ensures !Occurs(cfg.messageContent, UserToken) && !Occurs(cfg.messageContent, ServerToken)
      ==> r.content == cfg.messageContent
    ensures !Occurs(cfg.messageContent, UserToken) ==> r.content == RenderServer(cfg.messageContent, m.guildName)
  {
    assert OrElse(cfg.messageContent, "") == cfg.messageContent;
    Message(Render(OrElse(cfg.messageContent, ""), m.mention, m.guildName), [BuildEmbed(cfg, m)], false)
  }

  /** The reload reply: its text is chosen by the outcome alone. */
  function ReloadMessage(success: bool, source: Source): (r: Message)
    ensures r.content == ReloadSucceeded <==> success
    ensures r.content == ReloadFailed <==> !success
    ensures r.embeds == []
    ensures r.ephemeral <==> source == Slash
  {
    assert ReloadSucceeded != ReloadFailed by {
      assert ReloadSucceeded[0] == '\U{2705}';
      assert ReloadFailed[0] == '\U{274C}';
    }
    Message(if success then ReloadSucceeded else ReloadFailed, [], source == Slash)
  }

  /** A channel found in the client's cache, and whether text can be sent to it. */
  datatype Channel = Channel(textBased: bool)

  /**
   The member-join handler: nothing is sent without a loaded configuration or
   without a text channel under the configured identifier; otherwise the
   greeting goes to that channel.
   */
  function OnMemberJoin(config: Option<Config>, channels: map<string, Channel>, m: Member): (r: Option<Message>)
    ensures r.Some? <==>
      config.Some? && config.value.welcomeChannelId in channels && channels[config.value.welcomeChannelId].textBased
    ensures r.Some? ==> r.value == JoinMessage(config.value, m)
  {
    if config.None? then None
    else if config.value.welcomeChannelId !in channels then None
    else if !channels[config.value.welcomeChannelId].textBased then None
    else Some(JoinMessage(config.value, m))
  }

  /**
   When the test title holds no `{`, the test reply reads as the title followed
   by exactly the join greeting.
   */
  lemma TestContentIsTitleThenGreeting(cfg: Config, m: Member, source: Source)
    requires '{' !in cfg.testTitle
    requires '$' !in m.mention && '$' !in m.guildName
    ensures TestMessage(cfg, m, source).content == cfg.testTitle + JoinMessage(cfg, m).content
  {
    RenderBehindPrefix(cfg.testTitle, cfg.messageContent, m.mention, m.guildName);
  }

  /** With an empty test title, the test reply and the join greeting agree on their text. */
  lemma EmptyTestTitleGivesGreeting(cfg: Config, m: Member, source: Source)
    requires cfg.testTitle == ""
    ensures TestMessage(cfg, m, source).content == JoinMessage(cfg, m).content
  {
    assert cfg.testTitle + cfg.messageContent == cfg.messageContent;
  }

  /**
   The first `{user}` of the glued title and content becomes the mention,
   wherever it sits: in the title, in the content, or nowhere near the seam.
   */
  lemma TestContentReplacesFirstUser(cfg: Config, m: Member, source: Source, a: string, b: string)
    requires cfg.testTitle + cfg.messageContent == a + UserToken + b
    requires !Occurs(a, UserToken)
    requires '$' !in m.mention
    ensures TestMessage(cfg, m, source).content == RenderServer(a + m.mention + b, m.guildName)
  {
    assert OrElse(cfg.messageContent, "") == cfg.messageContent;
    RenderReplacesFirstUser(a, b, m.mention, m.guildName);
  }

  /** Glued text with `{server}` but no `{user}`: the first `{server}` becomes the guild name. */
  lemma TestContentResolvesServer(cfg: Config, m: Member, source: Source, a: string, b: string)
    requires cfg.testTitle + cfg.messageContent == a + ServerToken + b
    requires !Occurs(a + ServerToken + b, UserToken)
    requires !Occurs(a, ServerToken)
    requires '$' !in m.guildName
    ensures TestMessage(cfg, m, source).content == a + m.guildName + b
  {
    RenderServerReplacesFirst(a, b, m.guildName);
  }

  /** The greeting's first `{user}` becomes the mention, and `{server}` is resolved after it. */
  lemma JoinContentReplacesFirstUser(cfg: Config, m: Member, a: string, b: string)
    requires cfg.messageContent == a + UserToken + b
    requires !Occurs(a, UserToken)
    requires '$' !in m.mention
    ensures JoinMessage(cfg, m).content == RenderServer(a + m.mention + b, m.guildName)
  {
    assert OrElse(cfg.messageContent, "") == cfg.messageContent;
    RenderReplacesFirstUser(a, b, m.mention, m.guildName);
  }

  /** A greeting with `{server}` but no `{user}`: the first `{server}` becomes the guild name. */
  lemma JoinContentResolvesServer(cfg: Config, m: Member, a: string, b: string)
    requires cfg.messageContent == a + ServerToken + b
    requires !Occurs(cfg.messageContent, UserToken)
    requires !Occurs(a, ServerToken)
    requires '$' !in m.guildName
    ensures JoinMessage(cfg, m).content == a + m.guildName + b
  {
    RenderServerReplacesFirst(a, b, m.guildName);
  }

  /** Title `Hi ` and content `there {user}` greet `@Bob` as `Hi there @Bob`. */
  lemma ConcatenationBeforeSubstitution(cfg: Config, m: Member, source: Source)
    requires cfg.testTitle == "Hi " && cfg.messageContent == "there " + UserToken
    requires m.mention == "@Bob"
    ensures TestMessage(cfg, m, source).content == "Hi there @Bob"
  {
    assert OrElse(cfg.messageContent, "") == cfg.messageContent;
    GreetingExample(m.guildName);
  }

  /**
   A `{user}` in the test title takes the mention, so the first `{user}` of
   the message content is left as it is.
   */
  lemma TitleTokenShadowsContentToken(cfg: Config, m: Member, source: Source)
    requires cfg.testTitle == UserToken + " " && cfg.messageContent == "hi " + UserToken
    requires '{' !in m.mention
    requires '$' !in m.mention && '$' !in m.guildName
    ensures TestMessage(cfg, m, source).content == m.mention + " hi " + UserToken
  {
    assert OrElse(cfg.messageContent, "") == cfg.messageContent;
    GluedTokensRender(m.mention, m.guildName);
  }

  lemma GluedTokensRender(mention: string, guildName: string)
    requires '{' !in mention
    requires '$' !in mention && '$' !in guildName
    ensures Render((UserToken + " ") + ("hi " + UserToken), mention, guildName) == mention + " hi " + UserToken
  {
    assert (UserToken + " ") + ("hi " + UserToken) == UserToken + (" hi " + UserToken);
    FirstUserPass(mention, " hi " + UserToken, guildName);
    assert mention + (" hi " + UserToken) == (mention + " hi ") + UserToken;
    TrailingUserTokenSurvives(mention + " hi ", guildName);
  }
}
