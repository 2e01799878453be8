/** The email check of the registration flow: the pattern `^[^\s@]+@[^\s@]+\.[^\s@]+$`,
    first as the set of strings it describes, then as a single-pass matcher. */
module EmailFormat {
  import opened JsString

  /** Every character belongs to the class `[^\s@]`. */
  predicate Plain(t: string) {
    forall k :: 0 <= k < |t| ==> !IsWhitespace(t[k]) && t[k] != '@'
  }

  /** `s` splits as local `@` domain `.` tail, with the `@` at index `at`, the separating
      dot at index `dot`, and three non-empty runs of `[^\s@]` around them. The middle run
      may itself contain dots: the class `[^\s@]` admits '.'. */
  predicate Split(s: string, at: int, dot: int) {
    && 0 < at && at + 1 < dot && dot + 1 < |s|
    && s[at] == '@' && s[dot] == '.'
    && Plain(s[..at]) && Plain(s[at + 1..dot]) && Plain(s[dot + 1..])
  }

  /** The strings the email pattern matches. */
  predicate IsValidEmail(s: string) {
    exists at, dot | 0 < at < |s| && 0 < dot < |s| :: Split(s, at, dot)
  }

  /** A matched string has no whitespace and its only '@' is the one at `at`. */
  lemma SplitShape(s: string, at: int, dot: int)
    requires Split(s, at, dot)
    ensures forall k :: 0 <= k < |s| ==> !IsWhitespace(s[k])
    ensures forall k :: 0 <= k < |s| ==> (s[k] == '@' <==> k == at)
  {
  }

  /** A whitespace character anywhere makes the pattern fail. */
  lemma WhitespaceRejects(s: string, i: int)
    requires 0 <= i < |s| && IsWhitespace(s[i])
    ensures !IsValidEmail(s)
  {
  }

  /** Two '@' characters, or an '@' at the very start, make the pattern fail. */
  lemma MisplacedAtRejects(s: string, i: int, j: int)
    requires 0 <= i < |s| && s[i] == '@'
    requires i == 0 || (0 <= j < |s| && j != i && s[j] == '@')
    ensures !IsValidEmail(s)
  {
  }

  /** A left-to-right scan equivalent to testing the pattern: it remembers the position
      of the '@' and of the first dot that could separate the domain from its tail. */
  method MatchEmail(s: string) returns (ok: bool)
    ensures ok <==> IsValidEmail(s)
  {
    var i := 0;
    var at := -1;
    var dot := -1;
    var alive := true;
    while i < |s| && alive
      invariant 0 <= i <= |s|
      invariant alive ==> forall k :: 0 <= k < i ==> !IsWhitespace(s[k])
      invariant alive ==> forall k :: 0 <= k < i ==> (s[k] == '@' <==> k == at)
      invariant alive ==> at == -1 || 0 < at < i
      invariant alive && dot != -1 ==> at != -1 && at + 2 <= dot < i && s[dot] == '.'
      invariant alive && at != -1 ==> forall k :: at + 2 <= k < i && (dot == -1 || k < dot) ==> s[k] != '.'
      invariant !alive ==> !IsValidEmail(s)
    {
      var c := s[i];
      if IsWhitespace(c) {
        WhitespaceRejects(s, i);
        alive := false;
      } else if c == '@' {
        if i == 0 || at != -1 {
          MisplacedAtRejects(s, i, at);
          alive := false;
        } else {
          at := i;
        }
      } else if c == '.' && at != -1 && at + 2 <= i && dot == -1 {
        dot := i;
      }
      i := i + 1;
    }
    ok := alive && at != -1 && dot != -1 && dot + 1 < |s|;
    if ok {
      assert Plain(s[..at]);
      assert Plain(s[at + 1..dot]);
      assert Plain(s[dot + 1..]);
      assert Split(s, at, dot);
    } else if alive {
      ScanFindsMatch(s, at, dot);
    }
  }

  /** What a completed scan knows is enough to accept every matching string: it has seen
      the '@' and a separating dot that is not the last character. */
  lemma ScanFindsMatch(s: string, at: int, dot: int)
    requires at == -1 || 0 < at < |s|
    requires forall k :: 0 <= k < |s| ==> (s[k] == '@' <==> k == at)
    requires dot != -1 ==> at != -1 && at + 2 <= dot < |s| && s[dot] == '.'
    requires at != -1 ==> forall k :: at + 2 <= k < |s| && (dot == -1 || k < dot) ==> s[k] != '.'
    ensures IsValidEmail(s) ==> at != -1 && dot != -1 && dot + 1 < |s|
  {
  }

  /** The examples the registration flow is known to treat one way or the other. */
  lemma Examples()
    ensures IsValidEmail("a@b.com")
    ensures !IsValidEmail("abc")
    ensures !IsValidEmail("a@b.")
    ensures !IsValidEmail("a@.b")
    ensures !IsValidEmail("@b.com")
    ensures !IsValidEmail("a b@c.d")
  {
    assert Split("a@b.com", 1, 3);
    WhitespaceRejects("a b@c.d", 1);
    MisplacedAtRejects("@b.com", 0, 0);
  }
}
