/** The pure parts of the browser utilities (services/utils.ts): recruiter
    e-mail extraction, the HTML test and body formatting that precede PDF
    rendering, and the guard and request choice of the spreadsheet logger. */
module Utils {
  import opened Wrappers
  import opened Text
  import opened Types

  // ---------------------------------------------------------------------------
  // extractEmail
  // ---------------------------------------------------------------------------

  /** The two patterns, tried in this order:
      `[\w.-]+@[\w.-]+\.\w+` and
      `[a-zA-Z0-9._%+-]+@[a-zA-Z0-9.-]+\.[a-zA-Z]{2,}`. */
  datatype Pattern = WordPattern | StrictPattern

  /** The three character classes of a pattern: before the '@', between the
      '@' and the last dot, and after the last dot. */
  datatype Part = LocalPart | DomainPart | TopLevelPart

  predicate IsAsciiLetter(c: char) { ('a' <= c <= 'z') || ('A' <= c <= 'Z') }

  predicate IsAsciiDigit(c: char) { '0' <= c <= '9' }

  predicate InClass(p: Pattern, part: Part, c: char) {
    match (p, part)
    case (WordPattern, TopLevelPart) => IsWordChar(c)
    case (WordPattern, _) => IsWordChar(c) || c == '.' || c == '-'
    case (StrictPattern, LocalPart) =>
      IsAsciiLetter(c) || IsAsciiDigit(c) || c == '.' || c == '_' || c == '%' || c == '+' || c == '-'
    case (StrictPattern, DomainPart) => IsAsciiLetter(c) || IsAsciiDigit(c) || c == '.' || c == '-'
    case (StrictPattern, TopLevelPart) => IsAsciiLetter(c)
  }

  /** How many characters the part after the last dot needs at least. */
  function MinTopLevel(p: Pattern): nat {
    match p
    case WordPattern => 1
    case StrictPattern => 2
  }

  /** `s[lo..hi]` consists of characters of the class. */
  predicate Run(s: string, p: Pattern, part: Part, lo: int, hi: int) {
    0 <= lo <= hi <= |s| && forall k :: lo <= k < hi ==> InClass(p, part, s[k])
  }

  /** `s[i..e]` is a word of the pattern's language, split at the '@' in
      position `j` and at the dot in position `m`. */
  predicate MatchShape(s: string, p: Pattern, i: int, j: int, m: int, e: int) {
    0 <= i < j && j + 1 < m && m + 1 + MinTopLevel(p) <= e <= |s| &&
    Run(s, p, LocalPart, i, j) && s[j] == '@' &&
    Run(s, p, DomainPart, j + 1, m) && s[m] == '.' &&
    Run(s, p, TopLevelPart, m + 1, e)
  }

  /** The pattern matches exactly `s[i..e]`. */
  ghost predicate MatchSpan(s: string, p: Pattern, i: int, e: int) {
    exists j, m :: MatchShape(s, p, i, j, m, e)
  }

  /** `s[i..e]` is the match a global regular-expression search reports
      first: no match starts further left, and none at `i` is longer. */
  ghost predicate LeftmostLongest(s: string, p: Pattern, i: int, e: int) {
    0 <= i < e <= |s| && MatchSpan(s, p, i, e) &&
    (forall i', e' :: 0 <= i' < i ==> !MatchSpan(s, p, i', e')) &&
    (forall e' :: MatchSpan(s, p, i, e') ==> e' <= e)
  }

  ghost predicate NoMatch(s: string, p: Pattern) {
    forall i, e :: !MatchSpan(s, p, i, e)
  }

  /** Where a greedy run of the class starting at `lo` stops. */
  function RunEnd(s: string, p: Pattern, part: Part, lo: nat): (r: nat)
    requires lo <= |s|
    ensures lo <= r <= |s| && Run(s, p, part, lo, r)
    ensures r < |s| ==> !InClass(p, part, s[r])
    decreases |s| - lo
  {
    if lo < |s| && InClass(p, part, s[lo]) then RunEnd(s, p, part, lo + 1) else lo
  }

  /** Every run of the class from `lo` ends at or before the greedy one, and
      one followed by a character outside the class is the greedy one. */
  lemma RunEndIsMaximal(s: string, p: Pattern, part: Part, lo: nat, x: int)
    requires lo <= |s| && Run(s, p, part, lo, x)
    ensures x <= RunEnd(s, p, part, lo)
    ensures x < |s| && !InClass(p, part, s[x]) ==> RunEnd(s, p, part, lo) == x
  {
  }

  /** A dot at `m` that can end the domain: enough top-level characters follow. */
  predicate ValidDot(s: string, p: Pattern, m: int) {
    0 <= m < |s| && s[m] == '.' && RunEnd(s, p, TopLevelPart, m + 1) >= m + 1 + MinTopLevel(p)
  }

  /** The backtracking of the greedy domain: the last usable dot in `[lo, hi)`. */
  function LastDot(s: string, p: Pattern, lo: nat, hi: nat): (r: Option<nat>)
    requires hi <= |s|
    ensures r.Some? ==> lo <= r.value < hi && ValidDot(s, p, r.value)
    ensures r.Some? ==> forall m :: r.value < m < hi ==> !ValidDot(s, p, m)
    ensures r.None? ==> forall m :: lo <= m < hi ==> !ValidDot(s, p, m)
    decreases hi
  {
    if hi <= lo then None
    else if ValidDot(s, p, hi - 1) then Some(hi - 1)
    else LastDot(s, p, lo, hi - 1)
  }

  /** The end of the match the regular-expression engine finds when it
      tries position `i`: greedy local part up to the '@', greedy domain
      backed off to the last usable dot, greedy top level. */
  function MatchAt(s: string, p: Pattern, i: nat): (r: Option<nat>)
    requires i <= |s|
    ensures r.Some? ==> i < r.value <= |s|
  {
    var j := RunEnd(s, p, LocalPart, i);
    if j == i || j == |s| || s[j] != '@' then None
    else
      var k := RunEnd(s, p, DomainPart, j + 1);
      match LastDot(s, p, j + 2, k)
      case None => None
      case Some(m) => Some(RunEnd(s, p, TopLevelPart, m + 1))
  }

  /** What the engine reports at `i` is a match starting there. */
  lemma MatchAtIsMatch(s: string, p: Pattern, i: nat)
    requires i <= |s| && MatchAt(s, p, i).Some?
    ensures MatchSpan(s, p, i, MatchAt(s, p, i).value)
  {
    var j := RunEnd(s, p, LocalPart, i);
    var k := RunEnd(s, p, DomainPart, j + 1);
    var m := LastDot(s, p, j + 2, k).value;
    assert MatchShape(s, p, i, j, m, MatchAt(s, p, i).value);
  }

  /** Any match starting at `i` is found by the engine, and is no longer
      than what it reports. */
  lemma {:induction false} MatchAtCovers(s: string, p: Pattern, i: nat, j': int, m': int, e: int)
    requires i <= |s| && MatchShape(s, p, i, j', m', e)
    ensures MatchAt(s, p, i).Some? && e <= MatchAt(s, p, i).value
  {
    ShapeLocalRunIsGreedy(s, p, i, j', m', e);
    ShapeDotIsUsable(s, p, i, j', m', e);
    var m := LastDot(s, p, j' + 2, RunEnd(s, p, DomainPart, j' + 1)).value;
    LaterDotEndsFurther(s, p, m', m, e);
  }

  /** The local part of a match is where the engine's greedy run stops,
      since the '@' is outside its class. */
  lemma ShapeLocalRunIsGreedy(s: string, p: Pattern, i: int, j: int, m: int, e: int)
    requires MatchShape(s, p, i, j, m, e)
    ensures RunEnd(s, p, LocalPart, i) == j
  {
    RunEndIsMaximal(s, p, LocalPart, i, j);
  }

  /** The dot of a match is one the engine may back off to: it lies inside
      the greedy domain run and enough top-level characters follow it. */
  lemma ShapeDotIsUsable(s: string, p: Pattern, i: int, j: int, m: int, e: int)
    requires MatchShape(s, p, i, j, m, e)
    ensures ValidDot(s, p, m) && j + 2 <= m < RunEnd(s, p, DomainPart, j + 1)
  {
    assert Run(s, p, DomainPart, j + 1, m + 1);
    RunEndIsMaximal(s, p, DomainPart, j + 1, m + 1);
    RunEndIsMaximal(s, p, TopLevelPart, m + 1, e);
  }

  /** Backing off to the last usable dot never ends before a match that
      uses an earlier dot, since a dot stops the top-level run. */
  lemma LaterDotEndsFurther(s: string, p: Pattern, m': int, m: int, e: int)
    requires m' <= m && ValidDot(s, p, m) && m' + 1 <= e && Run(s, p, TopLevelPart, m' + 1, e)
    ensures e <= RunEnd(s, p, TopLevelPart, m + 1)
  {
    if m != m' {
      assert !InClass(p, TopLevelPart, s[m]);
    }
  }

  /** The engine's answer at `i` is a match, and it is the longest one
      starting at `i`; when it finds none there is none. */
  lemma {:induction false} MatchAtIsLongest(s: string, p: Pattern, i: nat)
    requires i <= |s|
    ensures MatchAt(s, p, i).Some? ==> MatchSpan(s, p, i, MatchAt(s, p, i).value)
    ensures forall e :: MatchSpan(s, p, i, e) ==> MatchAt(s, p, i).Some? && e <= MatchAt(s, p, i).value
  {
    if MatchAt(s, p, i).Some? {
      MatchAtIsMatch(s, p, i);
    }
    forall e | MatchSpan(s, p, i, e)
      ensures MatchAt(s, p, i).Some? && e <= MatchAt(s, p, i).value
    {
      var j', m' :| MatchShape(s, p, i, j', m', e);
      MatchAtCovers(s, p, i, j', m', e);
    }
  }

  lemma MatchSpanBounds(s: string, p: Pattern, i: int, e: int)
    requires MatchSpan(s, p, i, e)
    ensures 0 <= i < e <= |s|
  {
    var j, m :| MatchShape(s, p, i, j, m, e);
  }

  /** The first start position from `i` on where the pattern matches, with
      the engine's match there. */
  function FirstMatchFrom(s: string, p: Pattern, i: nat): (r: Option<(nat, nat)>)
    requires i <= |s|
    ensures r.Some? ==> i <= r.value.0 < r.value.1 <= |s|
    decreases |s| - i
  {
    if i == |s| then None
    else match MatchAt(s, p, i)
      case Some(e) => Some((i, e))
      case None => FirstMatchFrom(s, p, i + 1)
  }

  /** No match starts at the end of the text or beyond. */
  lemma NoMatchFromEnd(s: string, p: Pattern)
    ensures forall i', e' :: |s| <= i' ==> !MatchSpan(s, p, i', e')
  {
    forall i', e' | |s| <= i' && MatchSpan(s, p, i', e') ensures false {
      MatchSpanBounds(s, p, i', e');
    }
  }

  /** Where the engine finds nothing, no match starts, and the search
      moves on to the next position. */
  lemma SkipNonMatch(s: string, p: Pattern, i: nat)
    requires i < |s| && MatchAt(s, p, i).None?
    ensures FirstMatchFrom(s, p, i) == FirstMatchFrom(s, p, i + 1)
    ensures forall e' :: !MatchSpan(s, p, i, e')
  {
    MatchAtIsLongest(s, p, i);
  }

  lemma {:induction false} FirstMatchFromIsLeftmost(s: string, p: Pattern, i: nat)
    requires i <= |s|
    ensures FirstMatchFrom(s, p, i).Some? ==>
              var (b, e) := FirstMatchFrom(s, p, i).value;
              MatchSpan(s, p, b, e) &&
              (forall i', e' :: i <= i' < b ==> !MatchSpan(s, p, i', e')) &&
              (forall e' :: MatchSpan(s, p, b, e') ==> e' <= e)
    ensures FirstMatchFrom(s, p, i).None? ==> forall i', e' :: i <= i' ==> !MatchSpan(s, p, i', e')
    decreases |s| - i
  {
    if i == |s| {
      NoMatchFromEnd(s, p);
    } else if MatchAt(s, p, i).Some? {
      MatchAtIsLongest(s, p, i);
    } else {
      SkipNonMatch(s, p, i);
      FirstMatchFromIsLeftmost(s, p, i + 1);
      var r := FirstMatchFrom(s, p, i + 1);
      var b := if r.Some? then r.value.0 else |s| + 1;
      forall i', e' | i <= i' && (r.None? || i' < b) ensures !MatchSpan(s, p, i', e') {
        if i' == i {
        } else if r.Some? {
          assert i + 1 <= i' < b;
        }
      }
    }
  }

  /** `text.match(pattern)[0]`, or None when `match` returns null. */
  function FirstMatch(s: string, p: Pattern): Option<string> {
    match FirstMatchFrom(s, p, 0)
    case None => None
    case Some((i, e)) => Some(s[i..e])
  }

  /** The first pattern that matches anywhere decides; its first match,
      lower-cased, is the address. */
  function ExtractEmail(text: string): Option<string> {
    match FirstMatch(text, WordPattern)
    case Some(w) => Some(ToLower(w))
    case None =>
      match FirstMatch(text, StrictPattern)
      case Some(w) => Some(ToLower(w))
      case None => None
  }

  /** The first match of a pattern is its leftmost-longest match, and there
      is none exactly when the pattern matches nowhere. */
  lemma {:induction false} FirstMatchIsLeftmostLongest(s: string, p: Pattern)
    ensures FirstMatch(s, p).None? <==> NoMatch(s, p)
    ensures forall i, e :: LeftmostLongest(s, p, i, e) ==> FirstMatch(s, p) == Some(s[i..e])
    ensures FirstMatch(s, p).Some? ==> exists i, e :: LeftmostLongest(s, p, i, e) && FirstMatch(s, p).value == s[i..e]
  {
    FirstMatchFromIsLeftmost(s, p, 0);
    if FirstMatchFrom(s, p, 0).Some? {
      var (b, e) := FirstMatchFrom(s, p, 0).value;
      assert LeftmostLongest(s, p, b, e);
      forall i, e' | LeftmostLongest(s, p, i, e') ensures FirstMatch(s, p) == Some(s[i..e']) {
        assert !(i < b) && !(b < i);
      }
    }
  }

  /** `extractEmail` returns null exactly when neither pattern matches
      anywhere in the text. */
  lemma {:induction false} ExtractEmailNone(text: string)
    ensures ExtractEmail(text).None? <==> NoMatch(text, WordPattern) && NoMatch(text, StrictPattern)
  {
    FirstMatchIsLeftmostLongest(text, WordPattern);
    FirstMatchIsLeftmostLongest(text, StrictPattern);
  }

  /** The address is the leftmost-longest match of the first pattern, lower
      cased; the second pattern is consulted only when the first matches
      nowhere. */
  lemma {:induction false} ExtractEmailIsFirstPatternsMatch(text: string)
    ensures forall i, e :: LeftmostLongest(text, WordPattern, i, e) ==>
              ExtractEmail(text) == Some(ToLower(text[i..e]))
    ensures NoMatch(text, WordPattern) ==>
              forall i, e :: LeftmostLongest(text, StrictPattern, i, e) ==>
                ExtractEmail(text) == Some(ToLower(text[i..e]))
    ensures ExtractEmail(text).Some? ==>
              exists p, i, e :: LeftmostLongest(text, p, i, e) && ExtractEmail(text).value == ToLower(text[i..e])
  {
    FirstMatchIsLeftmostLongest(text, WordPattern);
    FirstMatchIsLeftmostLongest(text, StrictPattern);
  }

  /** A match always has an '@' in it. */
  lemma MatchHasAt(s: string, p: Pattern, i: int, e: int)
    requires MatchSpan(s, p, i, e)
    ensures 0 <= i <= e <= |s| && '@' in s[i..e]
  {
    var j, m :| MatchShape(s, p, i, j, m, e);
    assert s[i..e][j - i] == '@';
  }

  /** An extracted address contains '@' and no upper-case letter, so a text
      without '@' yields none. */
  lemma {:induction false} ExtractEmailShape(text: string)
    ensures ExtractEmail(text).Some? ==>
              '@' in ExtractEmail(text).value &&
              forall k :: 0 <= k < |ExtractEmail(text).value| ==> !IsUpperAscii(ExtractEmail(text).value[k])
    ensures '@' !in text ==> ExtractEmail(text).None?
  {
    ExtractEmailIsFirstPatternsMatch(text);
    if ExtractEmail(text).Some? {
      var p, i, e :| LeftmostLongest(text, p, i, e) && ExtractEmail(text).value == ToLower(text[i..e]);
      MatchHasAt(text, p, i, e);
      LowerSliceKeepsAt(text, i, e);
    }
  }

  lemma LowerSliceKeepsAt(text: string, i: int, e: int)
    requires 0 <= i <= e <= |text| && '@' in text[i..e]
    ensures '@' in ToLower(text[i..e]) && '@' in text
  {
    var w := text[i..e];
    var k :| 0 <= k < |w| && w[k] == '@';
    assert ToLower(w)[k] == '@';
    assert text[i + k] == '@';
  }

  // ---------------------------------------------------------------------------
  // downloadAsPDF: content formatting
  // ---------------------------------------------------------------------------

  /** `/<(h3|ul|div|p)/i` matches at `i`: a '<' followed, in any letter
      case, by one of the four tag names; only a prefix is tested. */
  predicate TagAt(s: string, i: int) {
    0 <= i && i + 1 < |s| && s[i] == '<' &&
    (LowerChar(s[i + 1]) == 'p' ||
     (i + 2 < |s| && LowerChar(s[i + 1]) == 'h' && s[i + 2] == '3') ||
     (i + 2 < |s| && LowerChar(s[i + 1]) == 'u' && LowerChar(s[i + 2]) == 'l') ||
     (i + 3 < |s| && LowerChar(s[i + 1]) == 'd' && LowerChar(s[i + 2]) == 'i' && LowerChar(s[i + 3]) == 'v'))
  }

  /** The regular-expression scan from position `i`. */
  function HasTagFrom(s: string, i: nat): (r: bool)
    requires i <= |s|
    ensures r <==> exists k :: i <= k < |s| && TagAt(s, k)
    decreases |s| - i
  {
    if i == |s| then false
    else TagAt(s, i) || HasTagFrom(s, i + 1)
  }

  /** Whether the content is treated as HTML (a tailored resume) rather than
      plain text (a cover letter). */
  function IsHtml(content: string): bool {
    HasTagFrom(content, 0)
  }

  /** The markup placed in the PDF container: HTML as it is, plain text with
      every line break turned into "<br>". */
  function BodyContent(content: string): string {
    if IsHtml(content) then content else ReplaceAll(content, "\n", "<br>")
  }

  /** HTML is recognised by a tag prefix anywhere, so "<pre" and "<P" count,
      and text without '<' is never HTML. */
  lemma {:induction false} IsHtmlByPrefix(content: string, before: string, after: string)
    ensures IsHtml(content) <==> exists k :: 0 <= k < |content| && TagAt(content, k)
    ensures IsHtml(before + "<pre" + after) && IsHtml(before + "<P" + after) && IsHtml(before + "<DiV" + after)
    ensures '<' !in content ==> !IsHtml(content)
  {
    var n := |before|;
    assert TagAt(before + "<pre" + after, n);
    assert TagAt(before + "<P" + after, n);
    assert TagAt(before + "<DiV" + after, n);
    if '<' !in content {
      forall k | 0 <= k < |content| ensures !TagAt(content, k) {
        assert content[k] in content;
      }
    }
  }

  /** HTML passes through untouched; plain text becomes its lines joined by
      "<br>", with no line break left. */
  lemma {:induction false} BodyContentFormatting(content: string)
    ensures IsHtml(content) ==> BodyContent(content) == content
    ensures !IsHtml(content) ==> BodyContent(content) == Join(Split(content, '\n'), "<br>")
    ensures !IsHtml(content) ==> '\n' !in BodyContent(content)
    ensures !IsHtml(content) && '\n' !in content ==> BodyContent(content) == content
  {
    if !IsHtml(content) {
      ReplaceCharIsSplitJoin(content, '\n', "<br>");
      ReplaceCharRemovesIt(content, '\n', "<br>");
      if '\n' !in content {
        assert !Contains(content, "\n");
        ReplaceAllWithoutOccurrence(content, "\n", "<br>");
      }
    }
  }

  // ---------------------------------------------------------------------------
  // sendToGoogleSheets
  // ---------------------------------------------------------------------------

  const MissingScriptUrlMessage: string := "Please configure Google Apps Script URL in settings"

  /** The two request shapes: an authenticated JSON POST, or an anonymous
      `no-cors` POST with a `text/plain` body. */
  datatype SheetsRequest =
    | AuthenticatedPost(url: string, authorization: string, payload: SheetPayload)
    | AnonymousPost(url: string, payload: SheetPayload)

  function ContentType(r: SheetsRequest): string {
    match r
    case AuthenticatedPost(_, _, _) => "application/json"
    case AnonymousPost(_, _) => "text/plain"
  }

  /** The URL guard, then the request chosen by the presence of an access
      token ("" when none was given). Its `{ success: true }` answer is
      represented by `Ok`. */
  function SendToGoogleSheets(data: SheetPayload, scriptUrl: string, accessToken: string): Result<SheetsRequest> {
    if scriptUrl == "" then Err(MissingScriptUrlMessage)
    else if accessToken != "" then Ok(AuthenticatedPost(scriptUrl, "Bearer " + accessToken, data))
    else Ok(AnonymousPost(scriptUrl, data))
  }

  /** Nothing is sent to an empty URL; otherwise the payload goes unchanged to
      the given URL, authenticated with the token exactly when there is one. */
  lemma SheetsGuardAndRequest(data: SheetPayload, scriptUrl: string, accessToken: string)
    ensures SendToGoogleSheets(data, scriptUrl, accessToken).Err? <==> scriptUrl == ""
    ensures scriptUrl == "" ==> SendToGoogleSheets(data, scriptUrl, accessToken).error == MissingScriptUrlMessage
    ensures SendToGoogleSheets(data, scriptUrl, accessToken).Ok? ==>
              var r := SendToGoogleSheets(data, scriptUrl, accessToken).value;
              r.url == scriptUrl && r.payload == data &&
              (r.AuthenticatedPost? <==> accessToken != "") &&
              (r.AuthenticatedPost? ==> r.authorization == "Bearer " + accessToken && ContentType(r) == "application/json") &&
              (r.AnonymousPost? ==> ContentType(r) == "text/plain")
  {
  }
}
