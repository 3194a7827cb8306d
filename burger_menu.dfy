/** The slide-in side menu: a fixed chat history filtered, case-insensitively, by
    the text typed in its search box, a clear button that shows while the box is
    not empty, and the horizontal offset the menu slides to. */
module BurgerMenu {

  datatype ChatEntry = ChatEntry(title: string, time: string, route: string, tag: string)

  /** The four past conversations listed in the menu. */
  const ChatHistory: seq<ChatEntry> := [
    ChatEntry("Why you revenue is dropping?", "28 min ago", "/chat/1", "Revenue"),
    ChatEntry("Revenue forecast Q2", "1h ago", "/chat/2", "Forecast"),
    ChatEntry("Customer segmentation", "2h ago", "/chat/3", "Customers"),
    ChatEntry("Monthly report", "1d ago", "/chat/4", "Report")
  ]

  /** Width of the menu panel. */
  const MenuWidth := 280
  /** Offset of the panel while it is hidden. */
  const HiddenOffset := -300

  /** `translateX` target: on screen when visible, entirely left of it otherwise. */
  function SlideTarget(isVisible: bool): (x: int)
    ensures isVisible ==> x == 0
    ensures !isVisible ==> x == HiddenOffset && x + MenuWidth <= 0
  {
    if isVisible then 0 else HiddenOffset
  }

  /** `toLowerCase` on one character, restricted to the ASCII letters. */
  function LowerChar(c: char): (d: char)
    ensures 'A' <= c <= 'Z' ==> d as int == c as int + 32
    ensures !('A' <= c <= 'Z') ==> d == c
    ensures !('A' <= d <= 'Z')
  {
    if 'A' <= c <= 'Z' then (c as int + 32) as char else c
  }

  function ToLower(s: string): (r: string)
    ensures |r| == |s|
    ensures forall i :: 0 <= i < |s| ==> r[i] == LowerChar(s[i])
  {
    if s == [] then [] else [LowerChar(s[0])] + ToLower(s[1..])
  }

  lemma ToLowerIdempotent(s: string)
    ensures ToLower(ToLower(s)) == ToLower(s)
  {
    assert forall i :: 0 <= i < |s| ==> ToLower(ToLower(s))[i] == LowerChar(LowerChar(s[i]));
  }

  lemma ToLowerConcat(a: string, b: string)
    ensures ToLower(a + b) == ToLower(a) + ToLower(b)
  {
    assert forall i :: 0 <= i < |a + b| ==> ToLower(a + b)[i] == (ToLower(a) + ToLower(b))[i];
  }

  /** `s.includes(sub)`: `sub` occurs in `s` as a contiguous block. */
  function Includes(s: string, sub: string): (r: bool)
    ensures sub == [] ==> r
    ensures r ==> |sub| <= |s|
  {
    sub <= s || (s != [] && Includes(s[1..], sub))
  }

  /** `sub` occurs in `s` starting at position `i`. */
  predicate OccursAt(s: string, sub: string, i: int) {
    0 <= i <= |s| - |sub| && s[i..i + |sub|] == sub
  }

  /** `Includes` agrees with the positional definition of a substring. */
  lemma {:induction false} IncludesAt(s: string, sub: string)
    ensures Includes(s, sub) <==> exists i :: OccursAt(s, sub, i)
  {
    if sub <= s {
      assert OccursAt(s, sub, 0);
    } else if s == [] {
    } else {
      IncludesAt(s[1..], sub);
      if Includes(s[1..], sub) {
        var i :| OccursAt(s[1..], sub, i);
        assert OccursAt(s, sub, i + 1);
      }
      if exists i :: OccursAt(s, sub, i) {
        var i :| OccursAt(s, sub, i);
        assert OccursAt(s[1..], sub, i - 1);
      }
    }
  }

  /** Whatever contains a longer search text contains its every prefix. */
  lemma {:induction false} IncludesPrefix(s: string, a: string, b: string)
    requires Includes(s, a + b)
    ensures Includes(s, a)
  {
    if a + b <= s {
      assert a <= s;
    } else {
      IncludesPrefix(s[1..], a, b);
    }
  }

  /** The filter predicate: the search text, lowered, occurs in the lowered title
      or in the lowered tag. */
  predicate Matches(e: ChatEntry, search: string) {
    Includes(ToLower(e.title), ToLower(search)) || Includes(ToLower(e.tag), ToLower(search))
  }

  /** `filteredHistory` */
  function Filtered(history: seq<ChatEntry>, search: string): (r: seq<ChatEntry>)
    ensures |r| <= |history|
    ensures forall e :: e in r <==> e in history && Matches(e, search)
  {
    if history == [] then []
    else if Matches(history[0], search) then [history[0]] + Filtered(history[1..], search)
    else Filtered(history[1..], search)
  }

  /** `a` keeps some of the elements of `b`, in their order in `b`. */
  predicate IsSubsequence(a: seq<ChatEntry>, b: seq<ChatEntry>)
    decreases |b|
  {
    if a == [] then true
    else if b == [] then false
    else (a[0] == b[0] && IsSubsequence(a[1..], b[1..])) || IsSubsequence(a, b[1..])
  }

  /** The filter keeps the entries in their history order. */
  lemma {:induction false} FilteredIsSubsequence(history: seq<ChatEntry>, search: string)
    ensures IsSubsequence(Filtered(history, search), history)
  {
    if history != [] {
      FilteredIsSubsequence(history[1..], search);
    }
  }

  /** An empty search box lists the whole history. */
  lemma {:induction false} EmptySearchKeepsAll(history: seq<ChatEntry>)
    ensures Filtered(history, "") == history
  {
    if history != [] {
      EmptySearchKeepsAll(history[1..]);
      assert ToLower("") == "";
      assert [history[0]] + history[1..] == history;
    }
  }

  /** Searching is insensitive to the case of the search text. */
  lemma {:induction false} FilterIgnoresCase(history: seq<ChatEntry>, a: string, b: string)
    requires ToLower(a) == ToLower(b)
    ensures Filtered(history, a) == Filtered(history, b)
  {
    if history != [] {
      FilterIgnoresCase(history[1..], a, b);
    }
  }

  lemma MatchesPrefix(e: ChatEntry, a: string, b: string)
    requires Matches(e, a + b)
    ensures Matches(e, a)
  {
    ToLowerConcat(a, b);
    if Includes(ToLower(e.title), ToLower(a + b)) {
      IncludesPrefix(ToLower(e.title), ToLower(a), ToLower(b));
    } else {
      IncludesPrefix(ToLower(e.tag), ToLower(a), ToLower(b));
    }
  }

  /** Typing more characters only removes entries from the list, never adds or
      reorders them. */
  lemma {:induction false} TypingNarrows(history: seq<ChatEntry>, a: string, b: string)
    ensures IsSubsequence(Filtered(history, a + b), Filtered(history, a))
  {
    if history != [] {
      TypingNarrows(history[1..], a, b);
      if Matches(history[0], a + b) {
        MatchesPrefix(history[0], a, b);
      }
    }
  }

  /** "No conversations found" shows exactly when no entry matches the search. */
  function NoResults(searchText: string): (b: bool)
    ensures b <==> forall e :: e in ChatHistory ==> !Matches(e, searchText)
  {
    var r := Filtered(ChatHistory, searchText);
    assert r != [] ==> r[0] in r;
    |r| == 0
  }

  /** The clear button shows exactly while the search box is not empty. */
  function ClearVisible(searchText: string): (b: bool)
    ensures b <==> |searchText| > 0
  {
    searchText != ""
  }

  /** Pressing the clear button: the box empties, the button hides and the whole
      history is listed again. */
  function ClearPressed(searchText: string): (text: string)
    requires ClearVisible(searchText)
    ensures text == "" && !ClearVisible(text)
    ensures Filtered(ChatHistory, text) == ChatHistory
  {
    EmptySearchKeepsAll(ChatHistory);
    ""
  }

  /** The search icon is black while the box has focus, grey otherwise. */
  function IconColor(inputFocused: bool): (color: string)
    ensures color == "#000" <==> inputFocused
  {
    if inputFocused then "#000" else "#8E8E93"
  }
}
