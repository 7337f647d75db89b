/** The URLs of pull requests and issues: what the event trampoline prints and the reconciler parses. */
module Urls {
  import opened Wrappers
  import opened Text
  import opened Workqueue

  // Printing

  /** The fields of an event payload that the URLs are made of. */
  datatype Payload = Payload(
    owner: string,
    repo: string,
    pullRequest: int,
    issue: int,
    issueIsPullRequest: bool,
    checkRun: seq<int>,
    checkSuite: seq<int>)

  /** The number of the pull request an event is about, or 0. */
  function PullRequestNumber(event: string, p: Payload): int {
    if event in ["pull_request", "pull_request_review", "pull_request_review_comment"] then p.pullRequest
    else if event == "issue_comment" then (if p.issueIsPullRequest && p.issue > 0 then p.issue else 0)
    else if event == "check_run" then (if |p.checkRun| > 0 then p.checkRun[0] else 0)
    else if event == "check_suite" then (if |p.checkSuite| > 0 then p.checkSuite[0] else 0)
    else 0
  }

  /** The number of the issue an event is about, or 0. */
  function IssueNumber(event: string, p: Payload): int {
    if event == "issues" then p.issue
    else if event == "issue_comment" then (if !p.issueIsPullRequest && p.issue > 0 then p.issue else 0)
    else 0
  }

  const HOST := "github.com"

  function PrintUrl(owner: string, repo: string, kind: string, number: int): string {
    "https://" + HOST + "/" + owner + "/" + repo + "/" + kind + "/" + Itoa(number)
  }

  function ExtractPullRequestURL(event: string, p: Payload): string {
    if p.owner == "" || p.repo == "" then ""
    else if PullRequestNumber(event, p) > 0 then PrintUrl(p.owner, p.repo, "pull", PullRequestNumber(event, p))
    else ""
  }

  function ExtractIssueURL(event: string, p: Payload): string {
    if p.owner == "" || p.repo == "" then ""
    else if IssueNumber(event, p) > 0 then PrintUrl(p.owner, p.repo, "issues", IssueNumber(event, p))
    else ""
  }

  // Parsing

  datatype Url = Url(host: string, path: string)

  predicate Unreserved(c: char) {
    IsDigit(c) || 'a' <= c <= 'z' || 'A' <= c <= 'Z' || c in "-._~"
  }

  predicate AllUnreserved(s: string) {
    forall i | 0 <= i < |s| :: Unreserved(s[i])
  }

  /** The text before the first slash. */
  function UpToSlash(s: string): (r: string)
    ensures |r| <= |s| && s[..|r|] == r && '/' !in r
    ensures |r| < |s| ==> s[|r|] == '/'
  {
    if s == [] || s[0] == '/' then [] else [s[0]] + UpToSlash(s[1..])
  }

  const SCHEME := "https://"

  /** What stands for itself in a path: anything but the escape character, the delimiters of query and
      fragment, and control characters. */
  predicate PathCharacter(c: char) {
    c >= ' ' && c != '\U{7f}' && c !in "%?#"
  }

  predicate IsPath(s: string) {
    forall i | 0 <= i < |s| :: PathCharacter(s[i])
  }

  predicate IsSegment(s: string) {
    IsPath(s) && '/' !in s
  }

  /** `url.Parse` on plain URLs: https, a host of unreserved characters, no user, port, escape, query or
      fragment (sections 3 and 2.3 of RFC 3986). */
  function ParsePlain(uri: string): Option<Url> {
    if |uri| < |SCHEME| || uri[..|SCHEME|] != SCHEME then None
    else
      var rest := uri[|SCHEME|..];
      var host := UpToSlash(rest);
      if AllUnreserved(host) && IsPath(rest[|host|..]) then Some(Url(host, rest[|host|..])) else None
  }

  function TrimSlashesLeft(s: string): string {
    if s != [] && s[0] == '/' then TrimSlashesLeft(s[1..]) else s
  }

  function TrimSlashesRight(s: string): string {
    if s != [] && s[|s| - 1] == '/' then TrimSlashesRight(s[..|s| - 1]) else s
  }

  /** `strings.Trim(s, "/")`. */
  function TrimSlashes(s: string): string {
    TrimSlashesRight(TrimSlashesLeft(s))
  }

  /** `strings.Split(s, "/")`. */
  function Split(s: string): (parts: seq<string>)
    ensures |parts| >= 1
    ensures forall i | 0 <= i < |parts| :: '/' !in parts[i]
    decreases |s|
  {
    var first := UpToSlash(s);
    if |first| == |s| then [s] else [first] + Split(s[|first| + 1..])
  }

  datatype Kind = Issue | PullRequest

  datatype Resource = Resource(owner: string, repo: string, number: int, kind: Kind, url: string)

  datatype ParseError = NotPlain | InvalidHost | InvalidPath | InvalidNumber | UnknownType

  datatype Result = Ok(resource: Resource) | Err(error: ParseError)

  predicate IsInt64(n: int) {
    -TWO_63 <= n < TWO_63
  }

  function ParseURL(uri: string): Result {
    var parsed := ParsePlain(uri);
    if parsed.None? then Err(NotPlain)
    else if parsed.value.host != HOST then Err(InvalidHost)
    else
      var parts := Split(TrimSlashes(parsed.value.path));
      if |parts| != 4 then Err(InvalidPath)
      else
        var number := Atoi(parts[3]);
        if number.None? || !IsInt64(number.value) then Err(InvalidNumber)
        else if parts[2] == "issues" then Ok(Resource(parts[0], parts[1], number.value, Issue, uri))
        else if parts[2] == "pull" then Ok(Resource(parts[0], parts[1], number.value, PullRequest, uri))
        else Err(UnknownType)
  }

  // Printing and parsing are inverse

  lemma {:induction false} UpToSlashStops(first: string, rest: string)
    requires '/' !in first
    ensures UpToSlash(first + "/" + rest) == first
    ensures UpToSlash(first) == first
  {
    if first != [] {
      assert first[0] in first && forall c | c in first[1..] :: c in first;
      UpToSlashStops(first[1..], rest);
      assert (first + "/" + rest)[1..] == first[1..] + "/" + rest;
    }
  }

  lemma SplitFirst(first: string, rest: string)
    requires '/' !in first
    ensures Split(first + "/" + rest) == [first] + Split(rest)
    ensures Split(first) == [first]
  {
    UpToSlashStops(first, rest);
    assert (first + "/" + rest)[|first| + 1..] == rest;
  }

  lemma DigitsAreSegment(n: nat)
    ensures IsSegment(Dec(n))
  {
    hide Dec;
  }

  function PathOf(owner: string, repo: string, kind: string, number: string): string {
    owner + "/" + (repo + "/" + (kind + "/" + number))
  }

  lemma SplitPath(owner: string, repo: string, kind: string, number: string)
    requires '/' !in owner && '/' !in repo && '/' !in kind && '/' !in number
    ensures Split(PathOf(owner, repo, kind, number)) == [owner, repo, kind, number]
  {
    SplitFirst(owner, repo + "/" + (kind + "/" + number));
    SplitFirst(repo, kind + "/" + number);
    SplitFirst(kind, number);
    SplitFirst(number, "");
  }

  /** A path that begins and ends with something else loses only the slash in front. */
  lemma TrimOneSlash(path: string)
    requires path != [] && path[0] != '/' && path[|path| - 1] != '/'
    ensures TrimSlashes("/" + path) == path
  {
    assert ("/" + path)[1..] == path;
    assert TrimSlashesLeft("/" + path) == TrimSlashesLeft(path) == path;
  }

  lemma PlainUri(host: string, path: string)
    requires AllUnreserved(host) && '/' !in host && IsPath(path)
    ensures ParsePlain(SCHEME + host + "/" + path) == Some(Url(host, "/" + path))
  {
    hide UpToSlash, AllUnreserved;
    var uri, rest := SCHEME + host + "/" + path, host + "/" + path;
    assert uri[..|SCHEME|] == SCHEME && uri[|SCHEME|..] == rest;
    UpToSlashStops(host, path);
    assert rest[|host|..] == "/" + path;
  }

  lemma PartsArePath(owner: string, repo: string, kind: string, number: string)
    requires IsPath(owner) && IsPath(repo) && IsPath(kind) && IsPath(number)
    ensures IsPath(PathOf(owner, repo, kind, number))
  {
    hide PathCharacter;
    assert PathCharacter('/') by {
      SlashInPath();
    }
  }

  lemma SlashInPath()
    ensures PathCharacter('/')
  {
  }

  lemma PrintedIsPlain(owner: string, repo: string, kind: string, number: string)
    requires IsPath(owner) && IsPath(repo) && IsPath(kind) && IsPath(number)
    ensures ParsePlain(SCHEME + HOST + "/" + PathOf(owner, repo, kind, number))
            == Some(Url(HOST, "/" + PathOf(owner, repo, kind, number)))
  {
    assert AllUnreserved(HOST);
    hide AllUnreserved, ParsePlain, PathOf, IsPath;
    PartsArePath(owner, repo, kind, number);
    PlainUri(HOST, PathOf(owner, repo, kind, number));
  }

  /** The parser recovers owner, repository, number and kind from any printed URL. */
  lemma ParseInvertsPrint(owner: string, repo: string, kind: Kind, number: int)
    requires owner != "" && repo != "" && IsSegment(owner) && IsSegment(repo) && 0 < number < TWO_63
    ensures var uri := PrintUrl(owner, repo, if kind.Issue? then "issues" else "pull", number);
            ParseURL(uri) == Ok(Resource(owner, repo, number, kind, uri))
  {
    hide ParsePlain, Split, TrimSlashes, Atoi, Dec;
    var word := if kind.Issue? then "issues" else "pull";
    var uri := PrintUrl(owner, repo, word, number);
    var path := PathOf(owner, repo, word, Itoa(number));
    assert uri == SCHEME + HOST + "/" + path;
    DigitsAreSegment(number);
    assert IsSegment(word);
    PrintedIsPlain(owner, repo, word, Itoa(number));
    SplitPath(owner, repo, word, Itoa(number));
    assert path[0] == owner[0] && path[|path| - 1] == Itoa(number)[|Itoa(number)| - 1];
    assert owner[0] in owner && Itoa(number)[|Itoa(number)| - 1] in Itoa(number);
    TrimOneSlash(path);
    AtoiInvertsItoa(number);
  }

  /** Every URL the trampoline emits parses back to the event's repository and number, and no event has
      both URLs. */
  lemma UrlRoundTrip(event: string, p: Payload)
    requires IsSegment(p.owner) && IsSegment(p.repo)
    requires PullRequestNumber(event, p) < TWO_63 && IssueNumber(event, p) < TWO_63
    ensures var uri := ExtractPullRequestURL(event, p);
            uri != "" ==> ParseURL(uri) == Ok(Resource(p.owner, p.repo, PullRequestNumber(event, p), PullRequest, uri))
    ensures var uri := ExtractIssueURL(event, p);
            uri != "" ==> ParseURL(uri) == Ok(Resource(p.owner, p.repo, IssueNumber(event, p), Issue, uri))
    ensures ExtractPullRequestURL(event, p) == "" || ExtractIssueURL(event, p) == ""
  {
    hide ParseURL, PrintUrl;
    if ExtractPullRequestURL(event, p) != "" {
      ParseInvertsPrint(p.owner, p.repo, PullRequest, PullRequestNumber(event, p));
    }
    if ExtractIssueURL(event, p) != "" {
      ParseInvertsPrint(p.owner, p.repo, Issue, IssueNumber(event, p));
    }
  }

  function Join(parts: seq<string>): string {
    if parts == [] then "" else if |parts| == 1 then parts[0] else parts[0] + "/" + Join(parts[1..])
  }

  lemma {:induction false} JoinInvertsSplit(s: string)
    ensures Join(Split(s)) == s
    decreases |s|
  {
    hide UpToSlash;
    var first := UpToSlash(s);
    if |first| == |s| {
      assert first == s;
    } else {
      var rest := s[|first| + 1..];
      JoinInvertsSplit(rest);
      assert Split(s)[1..] == Split(rest);
      assert s == first + "/" + rest;
    }
  }

  /** Whatever the parser accepts is, slashes at the ends aside, the path of what it returns: a number
      text that reads as the number, behind the word for the kind. */
  lemma AcceptedIsPath(uri: string) returns (number: string)
    requires ParseURL(uri).Ok?
    ensures var r := ParseURL(uri).resource;
            && r.url == uri && '/' !in r.owner && '/' !in r.repo
            && ParsePlain(uri).Some? && ParsePlain(uri).value.host == HOST
            && TrimSlashes(ParsePlain(uri).value.path)
               == PathOf(r.owner, r.repo, if r.kind.Issue? then "issues" else "pull", number)
            && Atoi(number) == Some(r.number)
  {
    hide ParsePlain, TrimSlashes, Atoi, Split;
    var trimmed := TrimSlashes(ParsePlain(uri).value.path);
    var parts := Split(trimmed);
    number := parts[3];
    JoinInvertsSplit(trimmed);
    assert Join(parts) == parts[0] + "/" + Join(parts[1..]);
    assert Join(parts[1..]) == parts[1] + "/" + Join(parts[1..][1..]);
    assert parts[1..][1..] == [parts[2], parts[3]];
    assert Join([parts[2], parts[3]]) == parts[2] + "/" + Join([parts[3]]) by {
      assert [parts[2], parts[3]][1..] == [parts[3]];
    }
    assert trimmed == PathOf(parts[0], parts[1], parts[2], number);
  }

  // Which number an event is about

  predicate Names(p: Payload) {
    p.owner != "" && p.repo != "" && IsSegment(p.owner) && IsSegment(p.repo)
  }

  /** The URL of pull request `n` of the payload's repository. */
  predicate IsPullRequestUrl(p: Payload, uri: string, n: int) {
    uri != "" && ParseURL(uri) == Ok(Resource(p.owner, p.repo, n, PullRequest, uri))
  }

  predicate IsIssueUrl(p: Payload, uri: string, n: int) {
    uri != "" && ParseURL(uri) == Ok(Resource(p.owner, p.repo, n, Issue, uri))
  }

  predicate Fits(n: int) {
    0 < n < TWO_63
  }

  /** Pull request events and reviews are about their pull request, comments about the issue if that is a pull
      request, checks about the first pull request they list; all of them only if its number is positive. */
  lemma PullRequestOfEvent(event: string, p: Payload)
    requires Names(p)
    ensures event in ["pull_request", "pull_request_review", "pull_request_review_comment"] && Fits(p.pullRequest) ==>
              IsPullRequestUrl(p, ExtractPullRequestURL(event, p), p.pullRequest)
    ensures event == "issue_comment" && p.issueIsPullRequest && Fits(p.issue) ==>
              IsPullRequestUrl(p, ExtractPullRequestURL(event, p), p.issue)
    ensures event == "check_run" && p.checkRun != [] && Fits(p.checkRun[0]) ==>
              IsPullRequestUrl(p, ExtractPullRequestURL(event, p), p.checkRun[0])
    ensures event == "check_suite" && p.checkSuite != [] && Fits(p.checkSuite[0]) ==>
              IsPullRequestUrl(p, ExtractPullRequestURL(event, p), p.checkSuite[0])
    ensures ExtractPullRequestURL(event, p) != "" ==>
              || (event in ["pull_request", "pull_request_review", "pull_request_review_comment"] && p.pullRequest > 0)
              || (event == "issue_comment" && p.issueIsPullRequest && p.issue > 0)
              || (event == "check_run" && p.checkRun != [] && p.checkRun[0] > 0)
              || (event == "check_suite" && p.checkSuite != [] && p.checkSuite[0] > 0)
  {
    hide ParseURL, PrintUrl, IsSegment;
    var n := PullRequestNumber(event, p);
    if Fits(n) {
      ParseInvertsPrint(p.owner, p.repo, PullRequest, n);
      PrintedIsNotEmpty(p.owner, p.repo, "pull", n);
    }
  }

  /** Issue events are about their issue, and comments about the issue if it is not a pull request. */
  lemma IssueOfEvent(event: string, p: Payload)
    requires Names(p)
    ensures event == "issues" && Fits(p.issue) ==> IsIssueUrl(p, ExtractIssueURL(event, p), p.issue)
    ensures event == "issue_comment" && !p.issueIsPullRequest && Fits(p.issue) ==>
              IsIssueUrl(p, ExtractIssueURL(event, p), p.issue)
    ensures ExtractIssueURL(event, p) != "" ==>
              p.issue > 0 && (event == "issues" || (event == "issue_comment" && !p.issueIsPullRequest))
  {
    hide ParseURL, PrintUrl, IsSegment;
    var n := IssueNumber(event, p);
    if Fits(n) {
      ParseInvertsPrint(p.owner, p.repo, Issue, n);
      PrintedIsNotEmpty(p.owner, p.repo, "issues", n);
    }
  }

  lemma PrintedIsNotEmpty(owner: string, repo: string, kind: string, number: int)
    ensures PrintUrl(owner, repo, kind, number) != ""
  {
    hide Dec;
  }

  /** Without an owner or a repository there is no URL. */
  lemma NamelessHasNoUrl(event: string, p: Payload)
    requires p.owner == "" || p.repo == ""
    ensures ExtractPullRequestURL(event, p) == ExtractIssueURL(event, p) == ""
  {
  }

  // Which URLs are accepted

  predicate AllSlashes(s: string) {
    forall i | 0 <= i < |s| :: s[i] == '/'
  }

  lemma {:induction false} SlashesGoLeft(a: string, s: string)
    requires AllSlashes(a)
    ensures TrimSlashesLeft(a + s) == TrimSlashesLeft(s)
  {
    if a == [] {
      assert a + s == s;
    } else {
      assert (a + s)[1..] == a[1..] + s;
      SlashesGoLeft(a[1..], s);
    }
  }

  lemma {:induction false} SlashesGoRight(s: string, b: string)
    requires AllSlashes(b)
    ensures TrimSlashesRight(s + b) == TrimSlashesRight(s)
  {
    if b == [] {
      assert s + b == s;
    } else {
      assert (s + b)[..|s + b| - 1] == s + b[..|b| - 1];
      SlashesGoRight(s, b[..|b| - 1]);
    }
  }

  /** Any number of slashes at either end is trimmed, and nothing else. */
  lemma TrimsExactly(a: string, path: string, b: string)
    requires AllSlashes(a) && AllSlashes(b) && path != [] && path[0] != '/' && path[|path| - 1] != '/'
    ensures TrimSlashes(a + path + b) == path
  {
    assert a + path + b == a + (path + b);
    SlashesGoLeft(a, path + b);
    assert TrimSlashesLeft(path + b) == path + b;
    SlashesGoRight(path, b);
  }

  /** A URL of the host with four path segments is accepted if and only if the fourth reads as a 64-bit number
      and the third is one of the two words, whatever slashes stand at the ends; otherwise the error says
      which of them failed, the number first. */
  lemma AcceptedExactly(slashes: string, owner: string, repo: string, word: string, number: string, more: string)
    requires IsSegment(owner) && IsSegment(repo) && IsSegment(word) && IsSegment(number)
    requires AllSlashes(slashes) && AllSlashes(more) && owner != "" && number != ""
    ensures var uri := SCHEME + HOST + "/" + (slashes + PathOf(owner, repo, word, number) + more);
            var n := Atoi(number);
            ParseURL(uri) ==
              if n.None? || !(-TWO_63 <= n.value < TWO_63) then Err(InvalidNumber)
              else if word == "issues" then Ok(Resource(owner, repo, n.value, Issue, uri))
              else if word == "pull" then Ok(Resource(owner, repo, n.value, PullRequest, uri))
              else Err(UnknownType)
  {
    hide ParsePlain, Split, TrimSlashes, Atoi, PathOf;
    var path := PathOf(owner, repo, word, number);
    var whole := slashes + path + more;
    assert AllUnreserved(HOST) && '/' !in HOST;
    SegmentsMakePath(slashes, owner, repo, word, number, more);
    PlainUri(HOST, whole);
    SplitPath(owner, repo, word, number);
    PathEnds(owner, repo, word, number);
    assert "/" + whole == ("/" + slashes) + path + more;
    TrimsExactly("/" + slashes, path, more);
  }

  lemma PathEnds(owner: string, repo: string, word: string, number: string)
    requires owner != "" && number != "" && '/' !in owner && '/' !in number
    ensures var path := PathOf(owner, repo, word, number);
            path != [] && path[0] != '/' && path[|path| - 1] != '/'
  {
    var path := PathOf(owner, repo, word, number);
    assert path[0] == owner[0] && owner[0] in owner;
    assert path[|path| - 1] == number[|number| - 1] && number[|number| - 1] in number;
  }

  lemma SegmentsMakePath(slashes: string, owner: string, repo: string, word: string, number: string, more: string)
    requires IsPath(owner) && IsPath(repo) && IsPath(word) && IsPath(number)
    requires AllSlashes(slashes) && AllSlashes(more)
    ensures IsPath(slashes + PathOf(owner, repo, word, number) + more)
  {
    hide PathCharacter, PathOf;
    SlashInPath();
    PartsArePath(owner, repo, word, number);
    assert forall i | 0 <= i < |slashes| :: slashes[i] == '/';
    assert IsPath(slashes) && IsPath(more);
  }

  /** Any other host is refused, and so is any other number of segments. */
  lemma RefusedExactly(host: string, path: string)
    requires AllUnreserved(host) && '/' !in host && IsPath(path)
    ensures host != HOST ==> ParseURL(SCHEME + host + "/" + path) == Err(InvalidHost)
    ensures host == HOST && |Split(TrimSlashes("/" + path))| != 4 ==>
              ParseURL(SCHEME + host + "/" + path) == Err(InvalidPath)
  {
    hide ParsePlain, Split, TrimSlashes, Atoi;
    PlainUri(host, path);
  }
}
