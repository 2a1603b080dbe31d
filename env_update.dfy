/**
 * The `.env` rewrite at the end of the refresh-token helper: the refresh
 * token line is replaced or appended, and the client id and secret lines
 * are put in front when the file lacks them. Reading and writing the file,
 * the prompt and the OAuth exchange that produces the token stay outside
 * the model; the file's old content (`None` when it does not exist) and the
 * user's answer are parameters.
 */
module EnvUpdate {
  import opened Wrappers
  import opened Text

  const RefreshKey := "GOOGLE_ADS_REFRESH_TOKEN"
  const ClientIdKey := "GOOGLE_ADS_CLIENT_ID"
  const SecretKey := "GOOGLE_ADS_CLIENT_SECRET"

  /** The prompt's answer saves the token when, stripped and lower-cased, it is "y". */
  predicate ShouldSave(answer: string) {
    Lower(Strip(answer)) == "y"
  }

  /** Exactly the answers "y" and "Y", with any surrounding whitespace, save the token. */
  lemma ShouldSaveIff(answer: string)
    ensures ShouldSave(answer) <==> Strip(answer) == "y" || Strip(answer) == "Y"
  {
    var s := Strip(answer);
    if |s| == 1 {
      assert Lower(s) == [LowerChar(s[0])];
      assert s == [s[0]];
    }
  }

  function Setting(key: string, value: string): string {
    key + "=" + value
  }

  /** A line that starts with the refresh key is replaced by the new token line. */
  function RewriteLine(line: string, token: string): string {
    if StartsWith(line, RefreshKey) then Setting(RefreshKey, token) else line
  }

  function Rewritten(lines: seq<string>, token: string): (r: seq<string>)
    ensures |r| == |lines|
  {
    seq(|lines|, i requires 0 <= i < |lines| => RewriteLine(lines[i], token))
  }

  /** The content with a token line appended, after a newline when the last line is open. */
  function WithTokenLine(content: string, token: string): string {
    Closed(content) + (Setting(RefreshKey, token) + "\n")
  }

  /** Non-empty content gets a final newline if it lacks one. */
  function Closed(content: string): string {
    if content != [] && !EndsWith(content, "\n") then content + "\n" else content
  }

  /** The content after the refresh-token step. */
  function TokenStep(content: string, token: string): string {
    if Contains(content, RefreshKey) then JoinLines(Rewritten(SplitLines(content), token))
    else WithTokenLine(content, token)
  }

  /** `line` put in front of `content` when `key` does not occur in it. */
  function PrependMissing(content: string, key: string, line: string): string {
    if Contains(content, key) then content else line + "\n" + content
  }

  /** The content written back to the file. */
  function UpdatedContent(content: string, token: string, clientId: string, secret: string): string {
    var withId := PrependMissing(TokenStep(content, token), ClientIdKey, Setting(ClientIdKey, clientId));
    PrependMissing(withId, SecretKey, Setting(SecretKey, secret))
  }

  /** The rewrite step by step: the line loop, the append, then the two prepends. */
  method UpdateEnvContent(content: string, token: string, clientId: string, secret: string)
    returns (envContent: string)
    ensures envContent == UpdatedContent(content, token, clientId, secret)
  {
    envContent := content;
    if Contains(envContent, RefreshKey) {
      var lines := SplitLines(envContent);
      var updatedLines: seq<string> := [];
      for i := 0 to |lines|
        invariant updatedLines == Rewritten(lines[..i], token)
      {
        if StartsWith(lines[i], RefreshKey) {
          updatedLines := updatedLines + [Setting(RefreshKey, token)];
        } else {
          updatedLines := updatedLines + [lines[i]];
        }
        assert lines[..i + 1] == lines[..i] + [lines[i]];
      }
      assert lines[..|lines|] == lines;
      envContent := JoinLines(updatedLines);
    } else {
      if envContent != [] && !EndsWith(envContent, "\n") {
        envContent := envContent + "\n";
      }
      envContent := envContent + (Setting(RefreshKey, token) + "\n");
    }
    if !Contains(envContent, ClientIdKey) {
      envContent := Setting(ClientIdKey, clientId) + "\n" + envContent;
    }
    if !Contains(envContent, SecretKey) {
      envContent := Setting(SecretKey, secret) + "\n" + envContent;
    }
  }

  /**
   * The whole save step: nothing is written unless the answer is "y";
   * a missing file reads as empty content.
   */
  method SaveRefreshToken(answer: string, existing: Option<string>, token: string, clientId: string, secret: string)
    returns (written: Option<string>)
    ensures written.Some? <==> ShouldSave(answer)
    ensures written.Some? ==> written.value == UpdatedContent(existing.GetOr(""), token, clientId, secret)
  {
    var saveToEnv := Lower(Strip(answer));
    if saveToEnv == "y" {
      var envContent := existing.GetOr("");
      envContent := UpdateEnvContent(envContent, token, clientId, secret);
      written := Some(envContent);
    } else {
      written := None;
    }
  }

  /**
   * When the key is present, the rewrite keeps the number of lines, turns
   * every line that starts with the key into the token line and leaves
   * every other line as it was.
   */
  lemma RewriteKeepsOtherLines(content: string, token: string)
    requires '\n' !in token && Contains(content, RefreshKey)
    ensures var lines := SplitLines(content);
      var after := SplitLines(TokenStep(content, token));
      |after| == |lines| &&
      forall i :: 0 <= i < |lines| ==>
        after[i] == if StartsWith(lines[i], RefreshKey) then Setting(RefreshKey, token) else lines[i]
  {
    var lines := SplitLines(content);
    var updated := Rewritten(lines, token);
    forall i | 0 <= i < |updated|
      ensures '\n' !in updated[i]
    {
      if StartsWith(lines[i], RefreshKey) {
        assert updated[i] == RefreshKey + "=" + token;
      }
    }
    SplitJoin(updated);
  }

  /**
   * When the key occurs in the file but at the start of no line (indented
   * or commented out, say), the rewrite leaves the content as it was: no
   * token line is written and none is appended.
   */
  lemma MidLineKeyKeepsContent(content: string, token: string)
    requires Contains(content, RefreshKey)
    requires forall i :: 0 <= i < |SplitLines(content)| ==> !StartsWith(SplitLines(content)[i], RefreshKey)
    ensures TokenStep(content, token) == content
  {
    var lines := SplitLines(content);
    assert Rewritten(lines, token) == lines;
    JoinSplit(content);
  }

  /**
   * Without the key, the old content is kept as the front of the new one and
   * the token line ends it, on a line of its own: an open last line is closed
   * first, and nothing else is added.
   */
  lemma AppendKeepsContent(content: string, token: string)
    requires !Contains(content, RefreshKey)
    ensures StartsWith(TokenStep(content, token), content)
    ensures EndsWith(TokenStep(content, token), Setting(RefreshKey, token) + "\n")
    ensures content != [] ==> EndsWith(TokenStep(content, token), "\n" + Setting(RefreshKey, token) + "\n")
    ensures |TokenStep(content, token)|
      == |content| + (if content != [] && !EndsWith(content, "\n") then 1 else 0) + |Setting(RefreshKey, token)| + 1
  {
    assert TokenStep(content, token) == Closed(content) + (Setting(RefreshKey, token) + "\n");
    AppendAfterClosed(content, Setting(RefreshKey, token) + "\n");
  }

  lemma AppendAfterClosed(content: string, line: string)
    ensures StartsWith(Closed(content) + line, content)
    ensures EndsWith(Closed(content) + line, line)
    ensures content != [] ==> EndsWith(Closed(content) + line, "\n" + line)
  {
    var c := Closed(content);
    var r := c + line;
    assert r[..|content|] == c[..|content|];
    assert r[|r| - |line|..] == line;
    if content != [] {
      assert c[|c| - 1] == '\n' by {
        if EndsWith(content, "\n") {
          assert content[|content| - 1..] == "\n";
        }
      }
      assert r[|r| - |line| - 1..] == [c[|c| - 1]] + line;
    }
  }

  /** A setting line put in front contains its key. */
  lemma SettingContainsKey(key: string, value: string, rest: string)
    ensures Contains(Setting(key, value) + "\n" + rest, key)
  {
    var t := Setting(key, value) + "\n" + rest;
    assert t[0..|key|] == key;
    ContainsAt(t, key, 0);
  }

  /** Whatever the file held, the content written names both the client id and the secret. */
  lemma UpdatedHasCredentials(content: string, token: string, clientId: string, secret: string)
    ensures Contains(UpdatedContent(content, token, clientId, secret), ClientIdKey)
    ensures Contains(UpdatedContent(content, token, clientId, secret), SecretKey)
  {
    var withId := PrependMissing(TokenStep(content, token), ClientIdKey, Setting(ClientIdKey, clientId));
    if !Contains(TokenStep(content, token), ClientIdKey) {
      SettingContainsKey(ClientIdKey, clientId, TokenStep(content, token));
    }
    assert Contains(withId, ClientIdKey);
    if !Contains(withId, SecretKey) {
      SettingContainsKey(SecretKey, secret, withId);
      ContainsInside(Setting(SecretKey, secret) + "\n", withId, "", ClientIdKey);
      assert Setting(SecretKey, secret) + "\n" + withId + "" == UpdatedContent(content, token, clientId, secret);
    }
  }

  /** The client id line names the secret key only when the id itself does. */
  lemma ClientLineWithoutSecret(clientId: string)
    ensures Contains(Setting(ClientIdKey, clientId), SecretKey) ==> Contains(clientId, SecretKey)
  {
    var line := Setting(ClientIdKey, clientId);
    var head := |ClientIdKey + "="|;
    if Contains(line, SecretKey) {
      SecretNotAtHead(line);
      var i := ContainsIndex(line, SecretKey);
      assert StartsWith(line[i..], SecretKey);
      assert clientId[i - head..i - head + |SecretKey|] == line[i..i + |SecretKey|];
      ContainsAt(clientId, SecretKey, i - head);
    }
  }

  /** No occurrence of the secret key starts inside the client id key or its `=`. */
  lemma SecretNotAtHead(line: string)
    requires |line| >= 21 && line[..21] == ClientIdKey + "="
    ensures forall i :: 0 <= i < 21 ==> !StartsWith(line[i..], SecretKey)
  {
    forall i | 0 <= i < 21
      ensures !StartsWith(line[i..], SecretKey)
    {
      if i == 0 {
        assert line[18] == 'I';
        assert |line[i..]| >= |SecretKey| ==> line[i..][..|SecretKey|][18] != SecretKey[18];
      } else if i == 3 {
        assert line[4] == 'L';
        assert |line[i..]| >= |SecretKey| ==> line[i..][..|SecretKey|][1] != SecretKey[1];
      } else {
        assert line[i] == line[..21][i];
        assert |line[i..]| >= |SecretKey| ==> line[i..][..|SecretKey|][0] != SecretKey[0];
      }
    }
  }

  /** The keys and the `=` hold no newline, so a setting line is one line. */
  lemma KeysOnOneLine()
    ensures '\n' !in SecretKey && '\n' !in ClientIdKey && '\n' !in "="
  {
    assert forall k :: 0 <= k < |SecretKey| ==> SecretKey[k] != '\n';
    assert forall k :: 0 <= k < |ClientIdKey| ==> ClientIdKey[k] != '\n';
  }

  /** Two newline-free lines put in front of a text come out as its first two lines. */
  lemma {:induction false} TwoLinesInFront(first: string, second: string, rest: string)
    requires '\n' !in first && '\n' !in second
    ensures SplitLines(first + "\n" + (second + "\n" + rest)) == [first, second] + SplitLines(rest)
  {
    var tail := "\n" + rest;
    SplitPrefix(second, tail);
    assert tail[1..] == rest;
    assert SplitLines(tail) == [""] + SplitLines(rest);
    assert second + "\n" + rest == second + tail;
    assert second + "" == second;
    var mid := second + "\n" + rest;
    var tail2 := "\n" + mid;
    SplitPrefix(first, tail2);
    assert tail2[1..] == mid;
    assert SplitLines(tail2) == [""] + SplitLines(mid);
    assert first + "\n" + mid == first + tail2;
    assert first + "" == first;
  }

  /**
   * A file that has neither credential after the token step gets the
   * secret line first, then the client id line, then its own lines.
   */
  lemma SecretLineComesFirst(content: string, token: string, clientId: string, secret: string)
    requires !Contains(TokenStep(content, token), ClientIdKey)
    requires !Contains(TokenStep(content, token), SecretKey)
    requires !Contains(clientId, SecretKey)
    requires '\n' !in clientId && '\n' !in secret
    ensures SplitLines(UpdatedContent(content, token, clientId, secret))
      == [Setting(SecretKey, secret), Setting(ClientIdKey, clientId)] + SplitLines(TokenStep(content, token))
  {
    var c1 := TokenStep(content, token);
    var idLine := Setting(ClientIdKey, clientId);
    var secretLine := Setting(SecretKey, secret);
    KeysOnOneLine();
    ClientLineWithoutSecret(clientId);
    ContainsAcross(idLine, '\n', c1, SecretKey);
    assert idLine + ['\n'] + c1 == idLine + "\n" + c1;
    assert UpdatedContent(content, token, clientId, secret) == secretLine + "\n" + (idLine + "\n" + c1);
    TwoLinesInFront(secretLine, idLine, c1);
  }
}
