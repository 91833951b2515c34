/**
 Which webhook URLs the built-in sender can post to.  notifications/discord.py passes on what the
 environment holds and builds the request before it catches anything, so urllib's demand for a scheme
 decides between a post and an exception.
 */
module WebhookUrl {
  import opened Common

  /** White space, as Python's strip removes it. */
  predicate IsSpace(c: char) {
    || '\t' <= c <= '\r' || '\U{1c}' <= c <= ' ' || c == '\U{85}' || c == '\U{a0}' || c == '\U{1680}'
    || '\U{2000}' <= c <= '\U{200a}' || c == '\U{2028}' || c == '\U{2029}' || c == '\U{202f}' || c == '\U{205f}' || c == '\U{3000}'
  }

  function Strip(s: string): string {
    if s == [] then s
    else if IsSpace(s[0]) then Strip(s[1..])
    else if IsSpace(s[|s| - 1]) then Strip(s[..|s| - 1])
    else s
  }

  /** urllib takes a URL out of angle brackets and drops a "URL:" before it looks at it. */
  function Unwrapped(url: string): string {
    var text := Strip(url);
    var inner := if |text| >= 2 && text[0] == '<' && text[|text| - 1] == '>' then Strip(text[1..|text| - 1]) else text;
    if "URL:" <= inner then Strip(inner[4..]) else inner
  }

  /** The text before the last '#', if there is one. */
  function WithoutFragment(text: string): string {
    var cut := LastHash(text);
    if cut.Some? then text[..cut.value] else text
  }

  function LastHash(text: string): (cut: Option<nat>)
    ensures cut.Some? ==> cut.value < |text|
  {
    if text == [] then None
    else if text[|text| - 1] == '#' then Some(|text| - 1) else LastHash(text[..|text| - 1])
  }

  /** The URL names a scheme: its first ':' comes after at least one character and before any '/'.  A request
      for a URL that does not cannot even be built. */
  predicate Postable(url: string) {
    NamesScheme(WithoutFragment(Unwrapped(url)))
  }

  predicate NamesScheme(text: string) {
    exists i :: 0 < i < |text| && EndsScheme(text, i)
  }

  predicate EndsScheme(text: string, i: nat)
    requires i < |text|
  {
    text[i] == ':' && forall k :: 0 <= k < i ==> text[k] != ':' && text[k] != '/'
  }

  lemma {:induction false} StripKeeps(s: string, c: char)
    ensures c in Strip(s) ==> c in s
    decreases |s|
  {
    if s == [] {
    } else if IsSpace(s[0]) {
      StripKeeps(s[1..], c);
    } else if IsSpace(s[|s| - 1]) {
      StripKeeps(s[..|s| - 1], c);
    }
  }

  /** A URL without a colon names no scheme, so one pasted without its "https://" cannot be posted to. */
  lemma NoColonNoScheme(url: string)
    requires ':' !in url
    ensures !Postable(url)
  {
    var text := Strip(url);
    StripKeeps(url, ':');
    if |text| >= 2 && text[0] == '<' && text[|text| - 1] == '>' { StripKeeps(text[1..|text| - 1], ':'); }
    var inner := if |text| >= 2 && text[0] == '<' && text[|text| - 1] == '>' then Strip(text[1..|text| - 1]) else text;
    if |inner| >= 4 { StripKeeps(inner[4..], ':'); }
  }

  predicate Visible(c: char) {
    '!' <= c <= '~'
  }

  /** A URL as it is meant to be given: visible at both ends, with no fragment, brackets or label around it. */
  predicate Plain(url: string) {
    && url != "" && Visible(url[0]) && Visible(url[|url| - 1]) && url[0] != '<' && '#' !in url && !("URL:" <= url)
  }

  lemma {:induction false} NoHash(text: string)
    requires '#' !in text
    ensures LastHash(text) == None
  {
    if text != [] {
      assert text[|text| - 1] in text;
      NoHash(text[..|text| - 1]);
    }
  }

  lemma {:induction false} LastHashAfter(text: string, fragment: string)
    requires '#' !in fragment
    ensures LastHash(text + "#" + fragment) == Some(|text|)
  {
    var whole := text + "#" + fragment;
    if fragment == [] {
      assert whole[|whole| - 1] == '#';
    } else {
      assert fragment[|fragment| - 1] in fragment && whole[|whole| - 1] == fragment[|fragment| - 1];
      assert whole[..|whole| - 1] == text + "#" + fragment[..|fragment| - 1];
      LastHashAfter(text, fragment[..|fragment| - 1]);
    }
  }

  lemma PlainIsUnwrapped(url: string)
    requires Plain(url)
    ensures Strip(url) == url && Unwrapped(url) == url && WithoutFragment(url) == url
  {
    NoHash(url);
  }

  /** A scheme is some text without colon or slash before a colon. */
  ghost predicate Split(url: string, scheme: string, rest: string) {
    url == scheme + ":" + rest && scheme != "" && ':' !in scheme && '/' !in scheme
  }

  lemma SchemeIsSplit(url: string)
    ensures NamesScheme(url) <==> exists scheme, rest :: Split(url, scheme, rest)
  {
    if i :| 0 < i < |url| && EndsScheme(url, i) {
      assert url == url[..i] + ":" + url[i + 1..];
      assert Split(url, url[..i], url[i + 1..]);
    }
    if scheme, rest :| Split(url, scheme, rest) {
      forall k | 0 <= k < |scheme| ensures url[k] != ':' && url[k] != '/' {
        assert scheme[k] in scheme && url[k] == scheme[k];
      }
      assert EndsScheme(url, |scheme|);
    }
  }

  /** A URL given as it is meant to be can be posted to if and only if it is a scheme, a colon and a rest. */
  lemma PlainUrlIsExact(url: string)
    requires Plain(url)
    ensures Postable(url) <==> exists scheme, rest :: Split(url, scheme, rest)
  {
    PlainIsUnwrapped(url);
    SchemeIsSplit(url);
  }

  lemma BracketsAreDropped(url: string)
    requires Plain(url)
    ensures Postable("<" + url + ">") == Postable(url)
  {
    PlainIsUnwrapped(url);
    var text := "<" + url + ">";
    assert text[|text| - 1] == '>' && text[1..|text| - 1] == url;
    assert Strip(text) == text;
    assert Unwrapped(text) == url;
  }

  lemma LabelIsDropped(url: string)
    requires Plain(url)
    ensures Postable("URL:" + url) == Postable(url)
  {
    PlainIsUnwrapped(url);
    var text := "URL:" + url;
    assert text[0] == 'U' && text[|text| - 1] == url[|url| - 1] && text[4..] == url;
    assert Strip(text) == text;
    assert Unwrapped(text) == url;
  }

  lemma SpaceIsDropped(url: string)
    requires Plain(url)
    ensures Postable(" " + url) == Postable(url + "\n") == Postable(url)
  {
    assert (" " + url)[1..] == url && Strip(" " + url) == Strip(url);
    var text := url + "\n";
    assert text[..|text| - 1] == url && text[0] == url[0] && text[|text| - 1] == '\n';
    assert Strip(text) == Strip(url);
  }

  lemma FragmentIsDropped(url: string, fragment: string)
    requires Plain(url) && '#' !in fragment && (fragment != "" ==> Visible(fragment[|fragment| - 1]))
    ensures Postable(url + "#" + fragment) == Postable(url)
  {
    PlainIsUnwrapped(url);
    var text := url + "#" + fragment;
    LabelsAreLetters(url, fragment);
    assert Strip(text) == text && Unwrapped(text) == text;
    LastHashAfter(url, fragment);
    assert text[..|url|] == url;
  }

  /** No label comes out of a URL that has none by adding a fragment. */
  lemma LabelsAreLetters(url: string, fragment: string)
    requires !("URL:" <= url)
    ensures !("URL:" <= url + "#" + fragment)
  {
    var text := url + "#" + fragment;
    if |url| >= 4 {
      assert text[..4] == url[..4];
    } else {
      assert text[|url|] == '#' && "URL:"[|url|] != '#';
    }
  }

  /** White space, angle brackets, a label and a fragment around it change nothing. */
  lemma DecorationNeverShows(url: string, fragment: string)
    requires Plain(url) && '#' !in fragment && (fragment != "" ==> Visible(fragment[|fragment| - 1]))
    ensures Postable("<" + url + ">") == Postable("URL:" + url) == Postable(url + "#" + fragment) == Postable(url)
    ensures Postable(" " + url) == Postable(url + "\n") == Postable(url)
  {
    BracketsAreDropped(url);
    LabelIsDropped(url);
    FragmentIsDropped(url, fragment);
    SpaceIsDropped(url);
  }

  const BARE_WEBHOOK := "discord.com/api/webhooks/1/abc"

  lemma BareWebhookIsNotPostable()
    ensures !Postable(BARE_WEBHOOK)
  {
    NoColonNoScheme(BARE_WEBHOOK);
  }
}
