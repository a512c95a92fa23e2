/**
 The welcome embed. The slash-command embed worker and the member-join handler
 set the same fields from the same configuration, so one function builds it.
 */
module Embeds {
  import opened Wrappers
  import opened Strings
  import opened Replace
  import opened Template
  import opened Settings

  const UserIconKeyword: string := "user-icon"
  const HttpPrefix: string := "http"
  const DefaultTitle: string := "Welcome!"
  const DefaultColor: string := "#ff8c00"

  /** `s || fallback` on a string: the empty string is the only falsy one. */
  function OrElse(s: string, fallback: string): (r: string)
    ensures r == s || r == fallback
    ensures s != "" ==> r == s
    ensures r != "" <==> s != "" || fallback != ""
  {
    if s == "" then fallback else s
  }

  /** `s.startsWith("http") ? s : undefined`. */
  function HttpOnly(s: string): (r: Option<string>)
    ensures r == Some(s) <==> StartsWith(s, HttpPrefix)
    ensures r.Some? ==> r.value == s
  {
    if StartsWith(s, HttpPrefix) then Some(s) else None
  }

  /**
   `getThumbnailUrl`: the member's avatar for any spelling of `user-icon`, an
   `http` address as given, and nothing otherwise.
   */
  function ThumbnailUrl(m: Member, thumb: string): (r: Option<string>)
    ensures CaseVariantOf(thumb, UserIconKeyword) ==> r == Some(m.avatarUrl512)
    ensures !CaseVariantOf(thumb, UserIconKeyword) && StartsWith(thumb, HttpPrefix) ==> r == Some(thumb)
    ensures !CaseVariantOf(thumb, UserIconKeyword) && !StartsWith(thumb, HttpPrefix) ==> r == None
  {
    ToLowerMatchesCaseVariants(thumb, UserIconKeyword);
    if ToLower(thumb) == UserIconKeyword then Some(m.avatarUrl512)
    else if StartsWith(thumb, HttpPrefix) then Some(thumb)
    else None
  }

  datatype Author = Author(name: string, iconUrl: Option<string>, url: Option<string>)

  /** The fields of the rendered embed; `timestamp` says whether one is set. */
  datatype Embed = Embed(
    author: Option<Author>,
    title: string,
    description: string,
    color: string,
    footer: Option<string>,
    thumbnail: Option<string>,
    image: Option<string>,
    timestamp: bool)

  /** Every link of the embed is an `http` address, except a thumbnail that is the avatar. */
  predicate LinksResolved(e: Embed, m: Member) {
    && (e.author.Some? ==> e.author.value.iconUrl.Some? ==> StartsWith(e.author.value.iconUrl.value, HttpPrefix))
    && (e.author.Some? ==> e.author.value.url.Some? ==> StartsWith(e.author.value.url.value, HttpPrefix))
    && (e.thumbnail.Some? ==> e.thumbnail.value == m.avatarUrl512 || StartsWith(e.thumbnail.value, HttpPrefix))
    && (e.image.Some? ==> StartsWith(e.image.value, HttpPrefix))
  }

  /** The thumbnail is set exactly when `getThumbnailUrl` gave a non-empty string, and is that string. */
  function Thumbnail(m: Member, thumb: string): (r: Option<string>)
    ensures r.Some? <==> ThumbnailUrl(m, thumb).Some? && ThumbnailUrl(m, thumb).value != ""
    ensures r.Some? ==> r.value != "" && r == ThumbnailUrl(m, thumb)
    ensures r.Some? ==> r.value == m.avatarUrl512 || StartsWith(r.value, HttpPrefix)
  {
    var url := ThumbnailUrl(m, thumb);
    if url.Some? && url.value != "" then url else None
  }

  /**
   The author line: present only for a non-empty name, which sees `{user}` as
   the display name; icon and link are kept only as `http` addresses.
   */
  function AuthorLine(a: AuthorSettings, m: Member): (r: Option<Author>)
    ensures r.Some? <==> a.name != ""
    ensures r.Some? ==> (r.value.iconUrl == Some(a.icon) <==> StartsWith(a.icon, HttpPrefix))
    ensures r.Some? ==> (r.value.url == Some(a.url) <==> StartsWith(a.url, HttpPrefix))
    ensures r.Some? ==> (r.value.iconUrl.None? <==> !StartsWith(a.icon, HttpPrefix))
    ensures r.Some? ==> (r.value.url.None? <==> !StartsWith(a.url, HttpPrefix))
    ensures r.Some? ==> r.value.iconUrl.Some? ==> StartsWith(r.value.iconUrl.value, HttpPrefix)
    ensures r.Some? ==> r.value.url.Some? ==> StartsWith(r.value.url.value, HttpPrefix)
  {
    if a.name != "" then
      Some(Author(Render(a.name, m.displayName, m.guildName), HttpOnly(a.icon), HttpOnly(a.url)))
    else None
  }

  /** The title: the configured one or `Welcome!`, with `{server}` resolved and `{user}` left alone. */
  function Title(title: string, guildName: string): (r: string)
    ensures title == "" ==> r == DefaultTitle
    ensures title != "" && !Occurs(title, ServerToken) ==> r == title
  {
    TokensUnbordered();
    NoMatchWithoutFirstChar(DefaultTitle, ServerToken);
    RenderServer(OrElse(title, DefaultTitle), guildName)
  }

  function BuildEmbed(cfg: Config, m: Member): (e: Embed)
    ensures e.author.Some? <==> cfg.embed.author.name != ""
    ensures e.author.Some? ==>
      && (e.author.value.iconUrl == Some(cfg.embed.author.icon) <==> StartsWith(cfg.embed.author.icon, HttpPrefix))
      && (e.author.value.url == Some(cfg.embed.author.url) <==> StartsWith(cfg.embed.author.url, HttpPrefix))
    ensures e.author.Some? ==>
      && (e.author.value.iconUrl.None? <==> !StartsWith(cfg.embed.author.icon, HttpPrefix))
      && (e.author.value.url.None? <==> !StartsWith(cfg.embed.author.url, HttpPrefix))
    ensures cfg.embed.title == "" ==> e.title == DefaultTitle
    ensures cfg.embed.title != "" && !Occurs(cfg.embed.title, ServerToken) ==> e.title == cfg.embed.title
    ensures cfg.embed.color == "" ==> e.color == DefaultColor
    ensures cfg.embed.color != "" ==> e.color == cfg.embed.color
    ensures e.footer.Some? <==> cfg.embed.footer != ""
    ensures cfg.embed.footer != "" && !Occurs(cfg.embed.footer, ServerToken) ==> e.footer == Some(cfg.embed.footer)
    ensures e.thumbnail.Some? <==>
      ThumbnailUrl(m, cfg.embed.thumbnail).Some? && ThumbnailUrl(m, cfg.embed.thumbnail).value != ""
    ensures e.thumbnail.Some? ==> e.thumbnail.value != "" && e.thumbnail == ThumbnailUrl(m, cfg.embed.thumbnail)
    ensures e.image == Some(cfg.embed.image) <==> StartsWith(cfg.embed.image, HttpPrefix)
    ensures e.image.Some? ==> e.image == Some(cfg.embed.image)
    ensures e.timestamp == cfg.embed.timestamp
    ensures LinksResolved(e, m)
  {
    var d := cfg.embed;
    Embed(
      AuthorLine(d.author, m),
      Title(d.title, m.guildName),
      Render(d.description, m.mention, m.guildName),
      OrElse(d.color, DefaultColor),
      if d.footer != "" then Some(RenderServer(d.footer, m.guildName)) else None,
      Thumbnail(m, d.thumbnail),
      HttpOnly(d.image),
      d.timestamp)
  }

  /**
   Title and footer see only `{server}`: two members of the same guild get the
   same title and footer.
   */
  lemma TitleAndFooterIgnoreMember(cfg: Config, m1: Member, m2: Member)
    requires m1.guildName == m2.guildName
    ensures BuildEmbed(cfg, m1).title == BuildEmbed(cfg, m2).title
    ensures BuildEmbed(cfg, m1).footer == BuildEmbed(cfg, m2).footer
  {
  }

  /** The title's first `{server}` becomes the guild name; the text around it is kept. */
  lemma TitleResolvesServer(cfg: Config, m: Member, a: string, b: string)
    requires cfg.embed.title == a + ServerToken + b
    requires !Occurs(a, ServerToken)
    requires '$' !in m.guildName
    ensures BuildEmbed(cfg, m).title == a + m.guildName + b
  {
    RenderServerReplacesFirst(a, b, m.guildName);
  }

  /** The footer's first `{server}` becomes the guild name; the text around it is kept. */
  lemma FooterResolvesServer(cfg: Config, m: Member, a: string, b: string)
    requires cfg.embed.footer == a + ServerToken + b
    requires !Occurs(a, ServerToken)
    requires '$' !in m.guildName
    ensures BuildEmbed(cfg, m).footer == Some(a + m.guildName + b)
  {
    RenderServerReplacesFirst(a, b, m.guildName);
  }

  /** A configured title without `{server}` is shown as written, `{user}` and all. */
  lemma TitleKeepsUserToken(cfg: Config, m: Member)
    requires cfg.embed.title != ""
    requires !Occurs(cfg.embed.title, ServerToken)
    ensures BuildEmbed(cfg, m).title == cfg.embed.title
  {
  }

  /** The description's first `{user}` becomes the mention, then `{server}` is resolved. */
  lemma DescriptionMentionsMember(cfg: Config, m: Member, a: string, b: string)
    requires cfg.embed.description == a + UserToken + b
    requires !Occurs(a, UserToken)
    requires '$' !in m.mention
    ensures BuildEmbed(cfg, m).description == RenderServer(a + m.mention + b, m.guildName)
  {
    RenderReplacesFirstUser(a, b, m.mention, m.guildName);
  }

  /** The author line's first `{user}` becomes the display name, not the mention. */
  lemma AuthorNameUsesDisplayName(cfg: Config, m: Member, a: string, b: string)
    requires cfg.embed.author.name == a + UserToken + b
    requires !Occurs(a, UserToken)
    requires '$' !in m.displayName
    ensures BuildEmbed(cfg, m).author.Some?
    ensures BuildEmbed(cfg, m).author.value.name == RenderServer(a + m.displayName + b, m.guildName)
  {
    RenderReplacesFirstUser(a, b, m.displayName, m.guildName);
  }

  /** A description without `{user}` goes through the `{server}` pass alone. */
  lemma DescriptionWithoutUser(cfg: Config, m: Member)
    requires !Occurs(cfg.embed.description, UserToken)
    ensures BuildEmbed(cfg, m).description == RenderServer(cfg.embed.description, m.guildName)
  {
  }

  /** An author name without `{user}` goes through the `{server}` pass alone. */
  lemma AuthorNameWithoutUser(cfg: Config, m: Member)
    requires cfg.embed.author.name != ""
    requires !Occurs(cfg.embed.author.name, UserToken)
    ensures BuildEmbed(cfg, m).author.Some?
    ensures BuildEmbed(cfg, m).author.value.name == RenderServer(cfg.embed.author.name, m.guildName)
  {
  }

  /** The description never sees the display name, nor the author line the mention. */
  lemma MentionAndDisplayNameKeepTheirPlaces(cfg: Config, m1: Member, m2: Member)
    requires m1.guildName == m2.guildName
    ensures m1.mention == m2.mention ==> BuildEmbed(cfg, m1).description == BuildEmbed(cfg, m2).description
    ensures m1.displayName == m2.displayName ==> BuildEmbed(cfg, m1).author == BuildEmbed(cfg, m2).author
  {
  }

  /** `user-icon` is a thumbnail shortcut only: as an image it is dropped. */
  lemma ImageHasNoUserIconShortcut(cfg: Config, m: Member)
    requires CaseVariantOf(cfg.embed.image, UserIconKeyword)
    ensures BuildEmbed(cfg, m).image == None
  {
    var image := cfg.embed.image;
    assert image[0] == 'u' || image[0] == ToUpperChar('u');
    assert !StartsWith(image, HttpPrefix) by {
      assert image[0] != HttpPrefix[0];
    }
  }

  /** The two thumbnail rules never compete: an `http` address is no spelling of `user-icon`. */
  lemma HttpIsNotUserIcon(s: string)
    requires StartsWith(s, HttpPrefix)
    ensures !CaseVariantOf(s, UserIconKeyword)
  {
    assert s[0] == HttpPrefix[0];
  }

  /** The keyword is recognised in any case. */
  lemma UserIconExamples(m: Member)
    ensures ThumbnailUrl(m, "user-icon") == Some(m.avatarUrl512)
    ensures ThumbnailUrl(m, "USER-ICON") == Some(m.avatarUrl512)
    ensures ThumbnailUrl(m, "User-Icon") == Some(m.avatarUrl512)
  {
    assert CaseVariantOf("USER-ICON", UserIconKeyword) by {
      forall i | 0 <= i < 9
        ensures "USER-ICON"[i] == UserIconKeyword[i] || "USER-ICON"[i] == ToUpperChar(UserIconKeyword[i])
      {
      }
    }
    assert CaseVariantOf("User-Icon", UserIconKeyword) by {
      forall i | 0 <= i < 9
        ensures "User-Icon"[i] == UserIconKeyword[i] || "User-Icon"[i] == ToUpperChar(UserIconKeyword[i])
      {
      }
    }
  }

  /** Other values pass only as `http` addresses. */
  lemma AddressExamples(m: Member)
    ensures ThumbnailUrl(m, "ftp://x") == None
    ensures ThumbnailUrl(m, "https://x") == Some("https://x")
  {
    assert !StartsWith("ftp://x", HttpPrefix) by {
      assert "ftp://x"[0] != HttpPrefix[0];
    }
    assert StartsWith("https://x", HttpPrefix) by {
      assert "https://x"[..4] == HttpPrefix;
    }
    HttpIsNotUserIcon("https://x");
  }
}
