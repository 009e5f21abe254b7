/** The pure string rules applied to user input: the custom-URL pattern and
    the invite-link pattern (both revisions), the whitespace removal done to an
    invite before it is checked (app.js only; the prototype checks the invite
    as typed), and the extraction of the invite code from a stored link with
    `split("/").pop()` (both revisions). */
module Validation {

  // ---------------------------------------------------------------------------
  // Character classes of the two regular expressions
  // ---------------------------------------------------------------------------

  predicate IsAsciiLetter(c: char) { 'a' <= c <= 'z' || 'A' <= c <= 'Z' }

  predicate IsAsciiDigit(c: char) { '0' <= c <= '9' }

  /** The class `[a-zA-Z0-9]` of the invite pattern. */
  predicate IsAsciiAlnum(c: char) { IsAsciiLetter(c) || IsAsciiDigit(c) }

  /** The class `[a-zA-Z0-9-_]` of the custom-URL pattern: after the range
      `0-9` the `-` is a literal, so the class holds letters, digits, `-`, `_`. */
  predicate IsCustomUrlChar(c: char) { IsAsciiAlnum(c) || c == '-' || c == '_' }

  // ---------------------------------------------------------------------------
  // The custom-URL rule: /^[a-zA-Z0-9-_]+$/
  // ---------------------------------------------------------------------------

  /** `urlPattern.test(s)`: one or more characters, every one from the class.
      (JavaScript's `$` without the `m` flag matches only at the very end.) */
  predicate ValidCustomUrl(s: string) {
    |s| > 0 && forall i :: 0 <= i < |s| ==> IsCustomUrlChar(s[i])
  }

  // ---------------------------------------------------------------------------
  // The invite rule: /^https:\/\/discord\.gg\/[a-zA-Z0-9]+$/
  // ---------------------------------------------------------------------------

  const InvitePrefix: string := "https://discord.gg/"

  /** One or more ASCII letters or digits: the part `[a-zA-Z0-9]+`. */
  predicate IsInviteCode(code: string) {
    |code| > 0 && forall i :: 0 <= i < |code| ==> IsAsciiAlnum(code[i])
  }

  /** `discordPattern.test(s)`: the literal prefix, then an invite code. */
  predicate ValidInvite(s: string) {
    |s| >= |InvitePrefix| && s[..|InvitePrefix|] == InvitePrefix && IsInviteCode(s[|InvitePrefix|..])
  }

  // ---------------------------------------------------------------------------
  // Whitespace removal: discordInvite.replace(/\s+/g, "")
  // ---------------------------------------------------------------------------

  /** JavaScript's `\s`: the WhiteSpace and LineTerminator code points of
      ECMAScript (tab, LF, VT, FF, CR, space, NBSP, the Zs separators, LS, PS
      and the byte-order mark). */
  predicate IsJsWhitespace(c: char) {
    || c == '\t' || c == '\n' || c == '\U{000B}' || c == '\U{000C}' || c == '\r' || c == ' '
    || c == '\U{00A0}' || c == '\U{1680}' || ('\U{2000}' <= c <= '\U{200A}')
    || c == '\U{2028}' || c == '\U{2029}' || c == '\U{202F}' || c == '\U{205F}'
    || c == '\U{3000}' || c == '\U{FEFF}'
  }

  predicate NoWhitespace(s: string) {
    forall i :: 0 <= i < |s| ==> !IsJsWhitespace(s[i])
  }

  /** Removing every run of whitespace is removing every whitespace character;
      the other characters keep their order. */
  function StripWhitespace(s: string): (r: string)
    ensures |r| <= |s|
    ensures NoWhitespace(r)
    decreases |s|
  {
    if s == [] then []
    else if IsJsWhitespace(s[0]) then StripWhitespace(s[1..])
    else [s[0]] + StripWhitespace(s[1..])
  }

  /** Stripping works piece by piece: whitespace is removed wherever it sits. */
  lemma {:induction false} StripConcat(a: string, b: string)
    ensures StripWhitespace(a + b) == StripWhitespace(a) + StripWhitespace(b)
    decreases |a|
  {
    if a != [] {
      assert a + b != [];
      assert (a + b)[0] == a[0];
      assert (a + b)[1..] == a[1..] + b;
      StripConcat(a[1..], b);
      if IsJsWhitespace(a[0]) {
        assert StripWhitespace(a + b) == StripWhitespace(a[1..] + b);
      } else {
        assert StripWhitespace(a + b) == [a[0]] + StripWhitespace(a[1..] + b);
        assert StripWhitespace(a) == [a[0]] + StripWhitespace(a[1..]);
      }
    } else {
      assert a + b == b;
    }
  }

  /** A string with no whitespace is left as it is. */
  lemma {:induction false} StripKeeps(s: string)
    requires NoWhitespace(s)
    ensures StripWhitespace(s) == s
    decreases |s|
  {
    if s != [] {
      StripKeeps(s[1..]);
    }
  }

  /** Stripping twice is stripping once. */
  lemma StripIdempotent(s: string)
    ensures StripWhitespace(StripWhitespace(s)) == StripWhitespace(s)
  {
    StripKeeps(StripWhitespace(s));
  }

  /** A valid invite contains no whitespace, so stripping it changes nothing:
      a link accepted by the pattern is stored exactly as it was typed. */
  lemma ValidInviteUnstripped(s: string)
    requires ValidInvite(s)
    ensures StripWhitespace(s) == s
  {
    forall i | 0 <= i < |s| ensures !IsJsWhitespace(s[i]) {
      if i >= |InvitePrefix| {
        assert s[i] == s[|InvitePrefix|..][i - |InvitePrefix|];
      } else {
        assert s[i] == InvitePrefix[i];
      }
    }
    StripKeeps(s);
  }

  /** An invite with whitespace in it never matches the pattern: the
      prototype, which does not strip, rejects it. */
  lemma WhitespaceInviteRejected(s: string)
    requires !NoWhitespace(s)
    ensures !ValidInvite(s)
  {
    if ValidInvite(s) {
      ValidInviteUnstripped(s);
    }
  }

  /** Stripping first only widens the rule: whatever the pattern accepts as
      typed it also accepts after stripping, and a leading space on a valid
      link is rejected as typed but accepted after stripping. */
  lemma StripWidensInviteRule(s: string)
    requires ValidInvite(s)
    ensures ValidInvite(StripWhitespace(s))
    ensures ValidInvite(StripWhitespace(" " + s)) && !ValidInvite(" " + s)
  {
    ValidInviteUnstripped(s);
    assert StripWhitespace(" " + s) == StripWhitespace(s) by {
      assert (" " + s)[1..] == s;
    }
    WhitespaceInviteRejected(" " + s);
  }

  // ---------------------------------------------------------------------------
  // Invite-code extraction: invite.split("/").pop()
  // ---------------------------------------------------------------------------

  /** `s.split("/")`: the pieces between the separators, never an empty list. */
  function Split(s: string): (parts: seq<string>)
    ensures |parts| >= 1
    ensures forall i :: 0 <= i < |parts| ==> '/' !in parts[i]
    decreases |s|
  {
    if s == [] then [[]]
    else if s[0] == '/' then [[]] + Split(s[1..])
    else
      var rest := Split(s[1..]);
      [[s[0]] + rest[0]] + rest[1..]
  }

  /** `parts.join("/")`, the inverse of Split. */
  function Join(parts: seq<string>): (r: string)
    requires |parts| >= 1
    decreases |parts|
  {
    if |parts| == 1 then parts[0] else parts[0] + "/" + Join(parts[1..])
  }

  /** The invite code the service looks up: the last piece of the split. */
  function InviteCode(invite: string): (r: string)
    ensures '/' !in r
  {
    var parts := Split(invite);
    parts[|parts| - 1]
  }

  /** Joining the pieces of a split gives back the string. */
  lemma {:induction false} JoinSplit(s: string)
    ensures Join(Split(s)) == s
    decreases |s|
  {
    if s == [] {
    } else if s[0] == '/' {
      JoinSplit(s[1..]);
      assert Split(s)[1..] == Split(s[1..]);
      assert s == "" + "/" + s[1..];
    } else {
      var rest := Split(s[1..]);
      JoinSplit(s[1..]);
      if |rest| == 1 {
        assert s == [s[0]] + rest[0];
      } else {
        assert Split(s)[1..] == rest[1..];
        assert Join(rest) == rest[0] + "/" + Join(rest[1..]);
        assert s == [s[0]] + s[1..];
      }
    }
  }

  /** A string without a separator splits into itself alone. */
  lemma {:induction false} SplitNoSlash(s: string)
    requires '/' !in s
    ensures Split(s) == [s]
    decreases |s|
  {
    if s != [] {
      assert '/' !in s[1..] by {
        forall i | 0 <= i < |s[1..]| ensures s[1..][i] != '/' {
          assert s[1..][i] == s[i + 1];
        }
      }
      SplitNoSlash(s[1..]);
      assert s == [s[0]] + s[1..];
    }
  }

  /** Splitting at a separator splits the two sides separately. */
  lemma {:induction false} SplitAtSlash(a: string, b: string)
    ensures Split(a + "/" + b) == Split(a) + Split(b)
    decreases |a|
  {
    var s := a + "/" + b;
    if a == [] {
      assert s == "/" + b;
      assert s[1..] == b;
    } else {
      assert s[0] == a[0];
      assert s[1..] == a[1..] + "/" + b;
      SplitAtSlash(a[1..], b);
      if a[0] != '/' {
        var ra := Split(a[1..]);
        assert Split(s[1..]) == ra + Split(b);
        assert (ra + Split(b))[0] == ra[0];
        assert (ra + Split(b))[1..] == ra[1..] + Split(b);
      }
    }
  }

  /** Splitting joined pieces that contain no separator gives the pieces back. */
  lemma {:induction false} SplitJoin(parts: seq<string>)
    requires |parts| >= 1
    requires forall i :: 0 <= i < |parts| ==> '/' !in parts[i]
    ensures Split(Join(parts)) == parts
    decreases |parts|
  {
    SplitNoSlash(parts[0]);
    if |parts| > 1 {
      SplitJoin(parts[1..]);
      SplitAtSlash(parts[0], Join(parts[1..]));
      assert parts == [parts[0]] + parts[1..];
    }
  }

  /** `r` is the segment after the last `/` of `s`: it contains no `/`, it ends
      `s`, and what precedes it is either nothing or a `/`. */
  ghost predicate IsLastSegment(s: string, r: string) {
    && '/' !in r
    && |r| <= |s| && s[|s| - |r|..] == r
    && (|r| < |s| ==> s[|s| - |r| - 1] == '/')
  }

  /** The last segment of `t` stays the last segment when something is put in
      front of `t`, as long as a `/` separates them. */
  lemma LastSegmentOfSuffix(p: string, t: string, r: string)
    requires IsLastSegment(t, r)
    requires |r| < |t| || (p != [] && p[|p| - 1] == '/')
    ensures IsLastSegment(p + t, r)
  {
    var s := p + t;
    assert s[|p|..] == t;
    assert s[|s| - |r|..] == t[|t| - |r|..];
    if |r| < |t| {
      assert s[|s| - |r| - 1] == t[|t| - |r| - 1];
    } else {
      assert s[|s| - |r| - 1] == p[|p| - 1];
    }
  }

  /** A leading `/` does not change the code, and keeps it the last segment. */
  lemma LastSegmentAfterSlash(s: string)
    requires s != [] && s[0] == '/'
    requires IsLastSegment(s[1..], InviteCode(s[1..]))
    ensures InviteCode(s) == InviteCode(s[1..])
    ensures IsLastSegment(s, InviteCode(s))
  {
    assert Split(s) == [[]] + Split(s[1..]);
    LastSegmentOfSuffix("/", s[1..], InviteCode(s[1..]));
    assert "/" + s[1..] == s;
  }

  /** When the rest of the string is one segment, the code is the whole string. */
  lemma LastSegmentWhole(s: string)
    requires s != [] && s[0] != '/' && |Split(s[1..])| == 1
    ensures IsLastSegment(s, InviteCode(s))
  {
    JoinSplit(s[1..]);
    assert InviteCode(s) == s;
  }

  /** Otherwise the string splits at its first `/` into a head `p`, which ends
      in that `/`, and a tail `t` with the same code. */
  lemma InviteCodeOfTail(s: string) returns (p: string, t: string)
    requires s != [] && s[0] != '/' && |Split(s[1..])| > 1
    ensures s == p + t && p != [] && p[|p| - 1] == '/' && |t| < |s|
    ensures '/' !in p[..|p| - 1]
    ensures InviteCode(s) == InviteCode(t)
  {
    var rest := Split(s[1..]);
    t := Join(rest[1..]);
    JoinSplit(s[1..]);
    assert s[1..] == rest[0] + "/" + t;
    SplitJoin(rest[1..]);
    assert Split(s) == [[s[0]] + rest[0]] + rest[1..];
    p := [s[0]] + rest[0] + "/";
    assert p[..|p| - 1] == [s[0]] + rest[0];
    assert s == [s[0]] + s[1..];
  }

  /** The code is the segment after the last `/` of the invite. */
  lemma {:induction false} InviteCodeIsLastSegment(s: string)
    ensures IsLastSegment(s, InviteCode(s))
    decreases |s|
  {
    if s == [] {
    } else if s[0] == '/' {
      InviteCodeIsLastSegment(s[1..]);
      LastSegmentAfterSlash(s);
    } else if |Split(s[1..])| == 1 {
      LastSegmentWhole(s);
    } else {
      var p, t := InviteCodeOfTail(s);
      InviteCodeIsLastSegment(t);
      LastSegmentOfSuffix(p, t, InviteCode(t));
    }
  }

  /** The code is empty exactly when the invite is empty or ends in `/`: the
      case `if (!inviteCode)` rejects. */
  lemma InviteCodeEmpty(s: string)
    ensures InviteCode(s) == [] <==> (s == [] || s[|s| - 1] == '/')
  {
    InviteCodeIsLastSegment(s);
  }

  /** Whatever precedes the last `/`, the code is what follows it. */
  lemma InviteCodeAfterLastSlash(head: string, code: string)
    requires '/' !in code
    ensures InviteCode(head + "/" + code) == code
  {
    SplitAtSlash(head, code);
    SplitNoSlash(code);
  }

  /** The link built from a code gives that code back. */
  lemma InviteCodeOfLink(code: string)
    requires '/' !in code
    ensures InviteCode(InvitePrefix + code) == code
  {
    assert InvitePrefix + code == "https://discord.gg" + "/" + code;
    InviteCodeAfterLastSlash("https://discord.gg", code);
  }

  /** For a link that passed validation, the extracted code is exactly the part
      after `https://discord.gg/`, and it is not empty. */
  lemma InviteCodeOfValid(s: string)
    requires ValidInvite(s)
    ensures InviteCode(s) == s[|InvitePrefix|..]
    ensures InviteCode(s) != []
  {
    var code := s[|InvitePrefix|..];
    assert s == InvitePrefix + code;
    assert '/' !in code by {
      forall i | 0 <= i < |code| ensures code[i] != '/' {
        assert IsAsciiAlnum(code[i]);
      }
    }
    InviteCodeOfLink(code);
  }

  /** Both directions of the invite rule: the prefix followed by a string is a
      valid link exactly when that string is an invite code, and then the code
      extracted from the link is that string. */
  lemma InviteRoundTrip(code: string)
    ensures ValidInvite(InvitePrefix + code) <==> IsInviteCode(code)
    ensures IsInviteCode(code) ==> InviteCode(InvitePrefix + code) == code
  {
    var s := InvitePrefix + code;
    assert s[..|InvitePrefix|] == InvitePrefix;
    assert s[|InvitePrefix|..] == code;
    if IsInviteCode(code) {
      InviteCodeOfValid(s);
    }
  }

  /** A valid custom URL is one path segment: no `/` and no whitespace, so it
      survives being placed in `/invite/<custom_url>` and in the OAuth `state`. */
  lemma CustomUrlIsSegment(s: string)
    requires ValidCustomUrl(s)
    ensures '/' !in s
    ensures NoWhitespace(s)
  {
    assert '/' !in s by {
      forall i | 0 <= i < |s| ensures s[i] != '/' {
        assert IsCustomUrlChar(s[i]);
      }
    }
  }
}
