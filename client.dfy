/**
 * The browser client's text helpers: the HTML-entity encoder used for every
 * user-supplied string it renders, and the @-mention autocomplete of the
 * message input (query detection, prefix filter, keyboard selection and the
 * splice of the chosen name into the text).
 */
module Client {
  import opened Wrappers
  import opened Strings

  // ---------------------------------------------------------------------------
  // escapeHtml

  /** The characters the encoder replaces. */
  predicate IsSpecial(c: char) {
    c == '&' || c == '<' || c == '>' || c == '"' || c == '\''
  }

  /** No character that could open a tag or close an attribute value. */
  predicate NoRawMarkup(s: string) {
    forall i :: 0 <= i < |s| ==> s[i] != '<' && s[i] != '>' && s[i] != '"' && s[i] != '\''
  }

  /** The replacement of one character: its entity for the five special ones, itself otherwise. */
  function Entity(c: char): (e: string)
    ensures !IsSpecial(c) ==> e == [c]
    ensures IsSpecial(c) ==> |e| >= 4 && e[0] == '&' && e[|e| - 1] == ';' && NoRawMarkup(e)
    ensures c == '&' ==> e == "&amp;"
    ensures c == '<' ==> e == "&lt;"
    ensures c == '>' ==> e == "&gt;"
    ensures c == '"' ==> e == "&quot;"
    ensures c == '\'' ==> e == "&#039;"
  {
    match c
    case '&' => "&amp;"
    case '<' => "&lt;"
    case '>' => "&gt;"
    case '"' => "&quot;"
    case '\'' => "&#039;"
    case _ => [c]
  }

  /** `text.replace(/[&<>"']/g, …)`: every character replaced by its entity, left to right. */
  function EscapeText(s: string): (r: string)
    ensures |r| >= |s|
    ensures NoRawMarkup(r)
    ensures (forall i :: 0 <= i < |s| ==> !IsSpecial(s[i])) ==> r == s
  {
    if s == [] then []
    else
      var head := Entity(s[0]);
      var rest := EscapeText(s[1..]);
      assert forall i :: |head| <= i < |head + rest| ==> (head + rest)[i] == rest[i - |head|];
      head + rest
  }

  /** Each character is encoded on its own: encoding a concatenation concatenates the encodings. */
  lemma {:induction false} EscapeTextAppend(a: string, b: string)
    ensures EscapeText(a + b) == EscapeText(a) + EscapeText(b)
    decreases |a|
  {
    if a == [] {
      assert a + b == b;
    } else {
      assert (a + b)[0] == a[0] && (a + b)[1..] == a[1..] + b;
      EscapeTextAppend(a[1..], b);
    }
  }

  /** A single character is encoded as exactly its entity. */
  lemma EscapeChar(c: char)
    ensures EscapeText([c]) == Entity(c)
  {
    assert [c][1..] == [];
  }

  /** `escapeHtml`: a missing or empty text renders as the empty string. */
  function EscapeHtml(text: Option<string>): (r: string)
    ensures text.None? ==> r == []
    ensures text.Some? ==> r == EscapeText(text.value)
  {
    if text.None? || text.value == [] then [] else EscapeText(text.value)
  }

  /** The first character a decoder reads off `s`, and how many characters of `s` encode it. */
  function DecodeHead(s: string): (d: (char, nat))
    requires s != []
    ensures 1 <= d.1 <= |s|
  {
    if StartsWith(s, "&amp;") then ('&', 5)
    else if StartsWith(s, "&lt;") then ('<', 4)
    else if StartsWith(s, "&gt;") then ('>', 4)
    else if StartsWith(s, "&quot;") then ('"', 6)
    else if StartsWith(s, "&#039;") then ('\'', 6)
    else (s[0], 1)
  }

  /** Decoding of the five entities the encoder emits; any other text is copied. */
  function UnescapeText(s: string): string
    decreases |s|
  {
    if s == [] then []
    else
      var d := DecodeHead(s);
      [d.0] + UnescapeText(s[d.1..])
  }

  /** An encoded character is read back first, whatever follows it. */
  lemma DecodeEntity(c: char, rest: string)
    ensures DecodeHead(Entity(c) + rest) == (c, |Entity(c)|)
  {
    var s := Entity(c) + rest;
    assert s[0] == Entity(c)[0];
    if c == '&' {
      assert s[..5] == "&amp;";
    } else if c == '<' {
      assert s[..4] == "&lt;";
      assert s[1] == 'l';
    } else if c == '>' {
      assert s[..4] == "&gt;";
      assert s[1] == 'g';
    } else if c == '"' {
      assert s[..6] == "&quot;";
      assert s[1] == 'q';
    } else if c == '\'' {
      assert s[..6] == "&#039;";
      assert s[1] == '#';
    }
  }

  /** The encoding loses nothing: decoding it gives the text back. */
  lemma {:induction false} UnescapeEscape(s: string)
    ensures UnescapeText(EscapeText(s)) == s
    decreases |s|
  {
    if s != [] {
      var head := Entity(s[0]);
      var rest := EscapeText(s[1..]);
      DecodeEntity(s[0], rest);
      assert (head + rest)[|head|..] == rest;
      UnescapeEscape(s[1..]);
      assert [s[0]] + s[1..] == s;
    }
  }

  // ---------------------------------------------------------------------------
  // Mentions

  predicate EndsWith(s: string, suffix: string) {
    |suffix| <= |s| && s[|s| - |suffix|..] == suffix
  }

  /** `mentionUser`: append "@name ", after a separating space unless the text is empty or already ends in one. */
  function WithMention(value: string, username: string): (r: string)
    ensures |r| == |value| + |username| + 2 + (if value != [] && value[|value| - 1] != ' ' then 1 else 0)
    ensures StartsWith(r, value)
    ensures EndsWith(r, "@" + username + " ")
    ensures value != [] ==> r[|r| - |username| - 3] == ' '
  {
    var sep := if |value| > 0 && !EndsWith(value, " ") then " " else "";
    var r := value + sep + "@" + username + " ";
    assert r[..|value|] == value;
    assert r[|r| - |username| - 2..] == "@" + username + " ";
    r
  }

  /**
   * The query of the `input` handler: the text between the last '@' before
   * the caret and the caret, provided it holds no space.
   */
  function MentionQuery(value: string, cursor: nat): (q: Option<string>)
    requires cursor <= |value|
    ensures q.Some? ==>
              && '@' !in q.value && ' ' !in q.value
              && |q.value| < cursor
              && value[cursor - |q.value| - 1] == '@'
              && value[cursor - |q.value|..cursor] == q.value
    ensures q.None? ==> '@' !in value[..cursor] || ' ' in value[LastIndexOf(value[..cursor], '@') + 1..cursor]
  {
    var before := value[..cursor];
    var at := LastIndexOf(before, '@');
    if at == -1 then None
    else
      var query := before[at + 1..];
      assert query == value[at + 1..cursor];
      if ' ' in query then None else Some(query)
  }

  /** `showSuggestions`' filter: the users whose lower-case form starts with the lower-case query, in list order. */
  function FilterByPrefix(users: seq<string>, query: string): (r: seq<string>)
    ensures |r| <= |users|
    ensures forall u :: u in r <==> u in users && StartsWith(Lower(u), Lower(query))
  {
    if users == [] then []
    else
      var rest := FilterByPrefix(users[1..], query);
      assert forall u :: u in users <==> u == users[0] || u in users[1..];
      if StartsWith(Lower(users[0]), Lower(query)) then [users[0]] + rest else rest
  }

  /** The filter works element by element: filtering a concatenation concatenates the results, in order. */
  lemma {:induction false} FilterByPrefixAppend(a: seq<string>, b: seq<string>, query: string)
    ensures FilterByPrefix(a + b, query) == FilterByPrefix(a, query) + FilterByPrefix(b, query)
    decreases |a|
  {
    if a == [] {
      assert a + b == b;
    } else {
      assert (a + b)[0] == a[0] && (a + b)[1..] == a[1..] + b;
      FilterByPrefixAppend(a[1..], b, query);
    }
  }

  /** A single user is kept exactly when its lower-case form starts with the lower-case query. */
  lemma FilterByPrefixSingle(u: string, query: string)
    ensures FilterByPrefix([u], query) == if StartsWith(Lower(u), Lower(query)) then [u] else []
  {
  }

  /**
   * `selectSuggestion`'s new text: everything before the last '@' ahead of
   * the caret, then "@name ", then everything from the caret on. JavaScript's
   * `substring(0, -1)` is empty, so without an '@' the prefix is empty.
   */
  function Spliced(value: string, cursor: nat, username: string): (r: string)
    requires cursor <= |value|
    ensures var at := LastIndexOf(value[..cursor], '@');
            var before := if at < 0 then [] else value[..at];
            && |r| == |before| + |username| + 2 + (|value| - cursor)
            && StartsWith(r, before)
            && EndsWith(r, "@" + username + " " + value[cursor..])
  {
    var at := LastIndexOf(value[..cursor], '@');
    var before := if at < 0 then [] else value[..at];
    var r := before + ("@" + username + " ") + value[cursor..];
    assert r[..|before|] == before;
    assert r[|before|..] == "@" + username + " " + value[cursor..];
    r
  }

  /** Choosing a suggestion replaces exactly the typed query (with its '@') by "@name ", keeping the text around it. */
  lemma SpliceReplacesQuery(value: string, cursor: nat, username: string)
    requires cursor <= |value| && MentionQuery(value, cursor).Some?
    ensures var q := MentionQuery(value, cursor).value;
            var start := cursor - |q| - 1;
            && value == value[..start] + ("@" + q) + value[cursor..]
            && Spliced(value, cursor, username) == value[..start] + ("@" + username + " ") + value[cursor..]
  {
    var q := MentionQuery(value, cursor).value;
    var before := value[..cursor];
    var at := LastIndexOf(before, '@');
    assert at == cursor - |q| - 1;
    assert value[..at] == before[..at];
    assert value == value[..at] + ("@" + q) + value[cursor..] by {
      assert value[at..cursor] == "@" + q;
      assert value == value[..at] + value[at..cursor] + value[cursor..];
    }
  }

  // ---------------------------------------------------------------------------
  // The input box with its suggestion dropdown

  /** The keys the `keydown` handler distinguishes. */
  datatype Key = ArrowUp | ArrowDown | Enter | Tab | Escape | OtherKey

  /** The message input, the autocomplete globals and the dropdown's visibility. */
  class Composer {
    /** The input's text and its caret (`selectionStart`). */
    var value: string
    var cursor: nat
    /** `globalWebUsers`, the names of the last user-list frame. */
    var webUsers: seq<string>
    /** `mentionMatches` and `selectedIndex`. */
    var matches: seq<string>
    var selectedIndex: int
    /** Whether the dropdown is displayed. */
    var dropdownVisible: bool

    /** The caret lies within the text, and a displayed dropdown has a highlighted entry. */
    ghost predicate Valid()
      reads this
    {
      cursor <= |value| && (dropdownVisible ==> 0 <= selectedIndex < |matches|)
    }

    constructor ()
      ensures Valid()
      ensures value == [] && cursor == 0 && webUsers == [] && matches == [] && selectedIndex == 0 && !dropdownVisible
    {
      value := [];
      cursor := 0;
      webUsers := [];
      matches := [];
      selectedIndex := 0;
      dropdownVisible := false;
    }

    /** The autocomplete part of `updateLists`: remember the web users. */
    method UpdateLists(users: seq<string>)
      modifies this`webUsers
      ensures webUsers == users
    {
      webUsers := users;
    }

    /** `mentionUser`; assigning the text moves the caret to its end. */
    method MentionUser(username: string)
      modifies this`value, this`cursor
      ensures value == WithMention(old(value), username) && cursor == |value|
      ensures old(Valid()) ==> Valid()
    {
      value := WithMention(value, username);
      cursor := |value|;
    }

    /** `showSuggestions`; an empty result hides the dropdown and leaves the highlighted index as it was. */
    method ShowSuggestions(query: string)
      modifies this`matches, this`selectedIndex, this`dropdownVisible
      ensures matches == FilterByPrefix(webUsers, query)
      ensures dropdownVisible <==> matches != []
      ensures selectedIndex == if matches != [] then 0 else old(selectedIndex)
      ensures cursor <= |value| ==> Valid()
    {
      matches := FilterByPrefix(webUsers, query);
      if matches == [] {
        dropdownVisible := false;
        return;
      }
      selectedIndex := 0;
      dropdownVisible := true;
    }

    /** The `input` handler, after the browser has put the new text and caret in place. */
    method OnInput(text: string, caret: nat)
      requires caret <= |text|
      modifies this`value, this`cursor, this`matches, this`selectedIndex, this`dropdownVisible
      ensures value == text && cursor == caret && Valid()
      ensures var query := MentionQuery(text, caret);
              && (query.Some? ==>
                    && matches == FilterByPrefix(webUsers, query.value)
                    && (dropdownVisible <==> matches != [])
                    && selectedIndex == if matches != [] then 0 else old(selectedIndex))
              && (query.None? ==> !dropdownVisible && matches == old(matches) && selectedIndex == old(selectedIndex))
    {
      value := text;
      cursor := caret;
      var query := MentionQuery(text, caret);
      if query.Some? {
        ShowSuggestions(query.value);
        return;
      }
      dropdownVisible := false;
    }

    /** `selectSuggestion`: splice the name in for the query, hide the dropdown; the caret ends up at the end of the text. */
    method SelectSuggestion(username: string)
      requires cursor <= |value|
      modifies this`value, this`cursor, this`dropdownVisible
      ensures value == Spliced(old(value), old(cursor), username) && cursor == |value|
      ensures !dropdownVisible && Valid()
    {
      value := Spliced(value, cursor, username);
      cursor := |value|;
      dropdownVisible := false;
    }

    /** The `keydown` handler: it acts only while the dropdown is displayed. */
    method OnKeyDown(key: Key)
      requires Valid()
      modifies this`value, this`cursor, this`selectedIndex, this`dropdownVisible
      ensures Valid()
      ensures !old(dropdownVisible) || key == OtherKey ==> unchanged(this)
      ensures old(dropdownVisible) && key == ArrowUp ==>
                selectedIndex == (if old(selectedIndex) > 0 then old(selectedIndex) - 1 else 0)
                && dropdownVisible && value == old(value)
      ensures old(dropdownVisible) && key == ArrowDown ==>
                selectedIndex == (if old(selectedIndex) + 1 < |matches| then old(selectedIndex) + 1 else |matches| - 1)
                && dropdownVisible && value == old(value)
      ensures old(dropdownVisible) && (key == Enter || key == Tab) ==>
                var chosen := matches[old(selectedIndex)];
                && (chosen != [] ==> value == Spliced(old(value), old(cursor), chosen) && !dropdownVisible)
                && (chosen == [] ==> unchanged(this))
      ensures old(dropdownVisible) && key == Escape ==> !dropdownVisible && value == old(value)
    {
      if !dropdownVisible {
        return;
      }
      match key
      case ArrowUp =>
        selectedIndex := if selectedIndex - 1 > 0 then selectedIndex - 1 else 0;
      case ArrowDown =>
        selectedIndex := if |matches| - 1 < selectedIndex + 1 then |matches| - 1 else selectedIndex + 1;
      case Enter =>
        Choose();
      case Tab =>
        Choose();
      case Escape =>
        dropdownVisible := false;
      case OtherKey =>
    }

    /** `if (mentionMatches[selectedIndex]) selectSuggestion(…)`: an empty name is falsy and is not inserted. */
    method Choose()
      requires Valid() && dropdownVisible
      modifies this`value, this`cursor, this`dropdownVisible
      ensures Valid()
      ensures var chosen := matches[selectedIndex];
              && (chosen != [] ==> value == Spliced(old(value), old(cursor), chosen) && !dropdownVisible)
              && (chosen == [] ==> unchanged(this))
    {
      if matches[selectedIndex] != [] {
        SelectSuggestion(matches[selectedIndex]);
      }
    }
  }
}
