/**
 The plugin's configuration record (`ESEWelcomerConfig`) and the part of a
 guild member the renderer reads.
 */
module Settings {

  datatype AuthorSettings = AuthorSettings(name: string, icon: string, url: string)

  datatype EmbedSettings = EmbedSettings(
    color: string,
    title: string,
    description: string,
    footer: string,
    thumbnail: string,
    image: string,
    timestamp: bool,
    author: AuthorSettings)

  datatype Config = Config(
    welcomeChannelId: string,
    testTitle: string,
    messageContent: string,
    embed: EmbedSettings)

  /**
   A guild member as the renderer sees it: its mention (`member.toString()`),
   its display name, the name of its guild and the 512-pixel avatar URL the
   chat library hands out for it.
   */
  datatype Member = Member(mention: string, displayName: string, guildName: string, avatarUrl512: string)
}
