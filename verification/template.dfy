/**
 Placeholder substitution: `{user}` and then `{server}`, each through one
 call of `String.prototype.replace`, so each token is replaced at its first
 occurrence only.
 */
module Template {
  import opened Strings
  import opened Replace

  const UserToken: string := "{user}"
  const ServerToken: string := "{server}"

  /** `t.replace("{user}", userText).replace("{server}", guildName)`. */
  function Render(t: string, userText: string, guildName: string): (r: string)
    ensures !Occurs(t, UserToken) ==> r == RenderServer(t, guildName)
    ensures !Occurs(t, UserToken) && !Occurs(t, ServerToken) ==> r == t
  {
    ReplaceFirst(ReplaceFirst(t, UserToken, userText), ServerToken, guildName)
  }

  /** `t.replace("{server}", guildName)`: the form used for title and footer. */
  function RenderServer(t: string, guildName: string): (r: string)
    ensures !Occurs(t, ServerToken) ==> r == t
  {
    ReplaceFirst(t, ServerToken, guildName)
  }

  lemma TokensUnbordered()
    ensures Unbordered(UserToken) && Unbordered(ServerToken)
    ensures UserToken[0] == ServerToken[0] == '{'
  {
  }

  /** A template with neither token comes back unchanged, whatever the member and guild. */
  lemma RenderWithoutTokens(t: string, userText: string, guildName: string)
    requires !Occurs(t, UserToken) && !Occurs(t, ServerToken)
    ensures Render(t, userText, guildName) == t
    ensures RenderServer(t, guildName) == t
  {
  }

  /**
   The first `{user}` is replaced by the user text, literally when it holds no
   `$`; everything after it, a second `{user}` included, is kept, and only
   then is `{server}` looked for in the result.
   */
  lemma RenderReplacesFirstUser(a: string, b: string, userText: string, guildName: string)
    requires !Occurs(a, UserToken)
    requires '$' !in userText
    ensures Render(a + UserToken + b, userText, guildName) == RenderServer(a + userText + b, guildName)
  {
    TokensUnbordered();
    ReplaceFirstLiteral(a, UserToken, b, userText);
  }

  /** The first `{server}` is replaced by the guild name; the rest is kept. */
  lemma RenderServerReplacesFirst(a: string, b: string, guildName: string)
    requires !Occurs(a, ServerToken)
    requires '$' !in guildName
    ensures RenderServer(a + ServerToken + b, guildName) == a + guildName + b
  {
    TokensUnbordered();
    ReplaceFirstLiteral(a, ServerToken, b, guildName);
  }

  /** Text in front of the template that holds no `{` is passed through untouched. */
  lemma RenderBehindPrefix(a: string, t: string, userText: string, guildName: string)
    requires '{' !in a
    requires '$' !in userText && '$' !in guildName
    ensures Render(a + t, userText, guildName) == a + Render(t, userText, guildName)
    ensures RenderServer(a + t, guildName) == a + RenderServer(t, guildName)
  {
    TokensUnbordered();
    ReplaceFirstBehindPrefix(a, t, UserToken, userText);
    ReplaceFirstBehindPrefix(a, ReplaceFirst(t, UserToken, userText), ServerToken, guildName);
    ReplaceFirstBehindPrefix(a, t, ServerToken, guildName);
  }

  /** A string shorter than a pattern cannot contain it. */
  lemma ShortStringHasNoMatch(s: string, pat: string)
    requires |s| < |pat|
    ensures !Occurs(s, pat)
  {
  }

  /** A trailing `{user}` after text without `{` survives the `{server}` pass. */
  lemma TrailingUserTokenSurvives(head: string, guildName: string)
    requires '{' !in head
    requires '$' !in guildName
    ensures RenderServer(head + UserToken, guildName) == head + UserToken
  {
    TokensUnbordered();
    ReplaceFirstBehindPrefix(head, UserToken, ServerToken, guildName);
    ShortStringHasNoMatch(UserToken, ServerToken);
  }

  lemma FirstUserPass(userText: string, rest: string, guildName: string)
    requires '$' !in userText
    ensures Render(UserToken + rest, userText, guildName) == RenderServer(userText + rest, guildName)
  {
    NoMatchWithoutFirstChar("", UserToken);
    assert "" + UserToken + rest == UserToken + rest;
    RenderReplacesFirstUser("", rest, userText, guildName);
    assert "" + userText + rest == userText + rest;
  }

  /** Text without `{` followed by `{user}`: the token becomes the user text and nothing else changes. */
  lemma PlainTextThenUser(a: string, userText: string, guildName: string)
    requires '{' !in a && '{' !in userText
    requires '$' !in userText
    ensures Render(a + UserToken, userText, guildName) == a + userText
  {
    TokensUnbordered();
    NoMatchWithoutFirstChar(a, UserToken);
    assert a + UserToken == a + UserToken + "";
    RenderReplacesFirstUser(a, "", userText, guildName);
    assert a + userText + "" == a + userText;
    NoMatchWithoutFirstChar(a + userText, ServerToken);
  }

  /** `Hi ` glued to `there {user}` and rendered for `@Bob`. */
  lemma GreetingExample(guildName: string)
    ensures Render("Hi " + ("there " + UserToken), "@Bob", guildName) == "Hi there @Bob"
  {
    var head := "Hi there ";
    assert "Hi " + ("there " + UserToken) == head + UserToken by {
      assert "Hi " + "there " == head;
    }
    assert Render(head + UserToken, "@Bob", guildName) == head + "@Bob" by {
      assert '{' !in head && '{' !in "@Bob" && '$' !in "@Bob";
      PlainTextThenUser(head, "@Bob", guildName);
    }
    assert head + "@Bob" == "Hi there @Bob";
  }

  /** Two `{user}` tokens: the second is left in the output. */
  lemma RenderLeavesSecondUser(userText: string, guildName: string)
    requires '{' !in userText
    requires '$' !in userText && '$' !in guildName
    ensures Render(UserToken + " " + UserToken, userText, guildName) == userText + " " + UserToken
  {
    assert UserToken + " " + UserToken == UserToken + (" " + UserToken);
    FirstUserPass(userText, " " + UserToken, guildName);
    assert userText + (" " + UserToken) == (userText + " ") + UserToken;
    TrailingUserTokenSurvives(userText + " ", guildName);
  }
}
