/**
 Path normalization and the choice of a policy rule. Cleaning a rooted path walks its segments
 with a stack; the rules see the path after normalizing it once more.
 */
module PathPolicy {
  import opened Text
  import opened Wrappers

  // ---------- Segments ----------

  /** Each segment after a slash; the root alone when there is none. */
  function Rooted(segments: seq<string>): string {
    if segments == [] then "/" else Spell(segments)
  }

  function Spell(segments: seq<string>): string {
    if segments == [] then "" else "/" + segments[0] + Spell(segments[1..])
  }

  predicate Plain(segment: string) {
    segment != "" && segment != "." && segment != ".." && '/' !in segment
  }

  predicate AllPlain(segments: seq<string>) {
    forall s :: s in segments ==> Plain(s)
  }

  function Push(stack: seq<string>, segment: string): seq<string> {
    if segment == "" || segment == "." then stack
    else if segment == ".." then (if stack == [] then [] else stack[..|stack| - 1])
    else stack + [segment]
  }

  function Walk(stack: seq<string>, segments: seq<string>): seq<string>
    decreases |segments|
  {
    if segments == [] then stack else Walk(Push(stack, segments[0]), segments[1..])
  }

  /** Cleaning of a path that starts with a slash. */
  function Clean(path: string): string {
    Rooted(Walk([], Split('/', path)))
  }

  function TrimSlash(value: string): string {
    if value != "" && value[0] == '/' then value[1..] else value
  }

  function NormalizePath(value: string): string {
    if value == "" then "/" else Clean("/" + TrimSlash(value))
  }

  // ---------- Walking ----------

  lemma {:induction false} WalkStaysPlain(stack: seq<string>, segments: seq<string>)
    requires AllPlain(stack) && forall s :: s in segments ==> '/' !in s
    ensures AllPlain(Walk(stack, segments))
    decreases |segments|
  {
    if segments != [] {
      assert '/' !in segments[0];
      WalkStaysPlain(Push(stack, segments[0]), segments[1..]);
    }
  }

  lemma {:induction false} WalkOfPlain(stack: seq<string>, segments: seq<string>)
    requires AllPlain(segments)
    ensures Walk(stack, segments) == stack + segments
    decreases |segments|
  {
    if segments == [] {
      assert stack + segments == stack;
    } else {
      assert Plain(segments[0]);
      WalkOfPlain(stack + [segments[0]], segments[1..]);
      assert stack + [segments[0]] + segments[1..] == stack + segments;
    }
  }

  lemma {:induction false} WalkOnward(stack: seq<string>, first: seq<string>, second: seq<string>)
    ensures Walk(stack, first + second) == Walk(Walk(stack, first), second)
    decreases |first|
  {
    if first == [] {
      assert first + second == second;
    } else {
      WalkOnward(Push(stack, first[0]), first[1..], second);
      assert (first + second)[1..] == first[1..] + second;
    }
  }

  /** Splitting what was spelled. */
  lemma SplitOfText(segment: string, rest: string)
    requires '/' !in segment
    ensures Split('/', segment + "/" + rest) == [segment] + Split('/', rest)
  {
    SplitOfJoined('/', segment, rest);
    SplitOfPiece('/', segment);
  }

  lemma {:induction false} SplitOfSpelled(segments: seq<string>)
    requires forall s :: s in segments ==> '/' !in s
    ensures Split('/', Spell(segments)) == [""] + segments
  {
    if segments != [] {
      var text := segments[0] + Spell(segments[1..]);
      assert Spell(segments) == "/" + text;
      assert ("/" + text)[1..] == text;
      if |segments| == 1 {
        assert text == segments[0];
        SplitOfPiece('/', segments[0]);
        assert segments == [segments[0]];
      } else {
        SplitOfSpelled(segments[1..]);
        SplitAfterFirst(segments);
      }
    }
  }

  lemma SplitAfterFirst(segments: seq<string>)
    requires |segments| > 1 && '/' !in segments[0] && Split('/', Spell(segments[1..])) == [""] + segments[1..]
    ensures Split('/', segments[0] + Spell(segments[1..])) == segments
  {
    var rest := segments[1..];
    var after := rest[0] + Spell(rest[1..]);
    assert Spell(rest) == "/" + after;
    assert segments[0] + Spell(rest) == segments[0] + "/" + after;
    SplitOfText(segments[0], after);
    assert ("/" + after)[1..] == after;
    assert Split('/', "/" + after) == [""] + Split('/', after);
    assert ([""] + rest)[1..] == rest && ([""] + Split('/', after))[1..] == Split('/', after);
    assert segments == [segments[0]] + rest;
  }

  // ---------- The normal form ----------

  lemma EmptyWalk()
    ensures Walk([], Split('/', "/" + TrimSlash(""))) == []
  {
    assert Split('/', "/") == ["", ""];
    assert ["", ""][1..] == [""] && [""][1..] == [];
    assert Walk([], [""]) == [];
  }

  /** The segments of the normal form of a path. */
  function Segments(value: string): (segments: seq<string>)
    ensures AllPlain(segments)
    ensures NormalizePath(value) == Rooted(segments)
  {
    WalkStaysPlain([], Split('/', "/" + TrimSlash(value)));
    EmptyWalk();
    Walk([], Split('/', "/" + TrimSlash(value)))
  }

  lemma SegmentsOfRooted(segments: seq<string>)
    requires AllPlain(segments)
    ensures Segments(Rooted(segments)) == segments
  {
    var text := Rooted(segments);
    assert "/" + TrimSlash(text) == text;
    if segments == [] {
      assert Split('/', "/") == ["", ""];
    } else {
      assert forall s :: s in segments ==> Plain(s);
      SplitOfSpelled(segments);
      assert ([""] + segments)[1..] == segments;
      WalkOfPlain([], segments);
    }
  }

  /**
   The result is rooted and has no empty, dot or dot-dot segment: it is the root, or splits into
   an empty piece and plain ones.
   */
  lemma NormalForm(value: string)
    ensures var r := NormalizePath(value);
            && r != "" && r[0] == '/'
            && (r == "/" || (AllPlain(Split('/', r)[1..]) && Split('/', r)[0] == ""))
  {
    var segments := Segments(value);
    if segments != [] {
      assert forall s :: s in segments ==> Plain(s);
      SplitOfSpelled(segments);
      assert ([""] + segments)[1..] == segments;
    }
  }

  /** A path is its own normal form exactly when it is the root or spells plain segments. */
  lemma NormalizedExactlyWhen(value: string)
    ensures NormalizePath(value) == value <==> exists segments :: AllPlain(segments) && Rooted(segments) == value
  {
    if NormalizePath(value) == value {
      assert AllPlain(Segments(value)) && Rooted(Segments(value)) == value;
    }
    if segments :| AllPlain(segments) && Rooted(segments) == value {
      SegmentsOfRooted(segments);
    }
  }

  lemma Idempotent(value: string)
    ensures NormalizePath(NormalizePath(value)) == NormalizePath(value)
  {
    SegmentsOfRooted(Segments(value));
  }

  // ---------- An independent reading: from the last segment backwards ----------

  /** Every dot-dot takes away the nearest plain segment before it that no later dot-dot has taken. */
  function Surviving(segments: seq<string>, taken: nat): seq<string> {
    if segments == [] then []
    else
      var before, last := segments[..|segments| - 1], segments[|segments| - 1];
      if last == "" || last == "." then Surviving(before, taken)
      else if last == ".." then Surviving(before, taken + 1)
      else if taken > 0 then Surviving(before, taken - 1)
      else Surviving(before, 0) + [last]
  }

  function DropLast(s: seq<string>, n: nat): seq<string> {
    if n >= |s| then [] else s[..|s| - n]
  }

  /** One more segment on the stack, seen with `taken` segments to be taken away. */
  lemma PushThenDrop(stack: seq<string>, last: string, taken: nat)
    ensures DropLast(Push(stack, last), taken) ==
              if last == "" || last == "." then DropLast(stack, taken)
              else if last == ".." then DropLast(stack, taken + 1)
              else if taken > 0 then DropLast(stack, taken - 1)
              else stack + [last]
  {
  }

  lemma {:induction false} WalkBackwards(segments: seq<string>, taken: nat)
    ensures Surviving(segments, taken) == DropLast(Walk([], segments), taken)
  {
    if segments != [] {
      var before, last := segments[..|segments| - 1], segments[|segments| - 1];
      assert segments == before + [last];
      WalkOnward([], before, [last]);
      assert Walk([], segments) == Push(Walk([], before), last);
      PushThenDrop(Walk([], before), last, taken);
      WalkBackwards(before, if last == "" || last == "." then taken
                            else if last == ".." then taken + 1
                            else if taken > 0 then taken - 1
                            else 0);
    }
  }

  lemma SegmentsFromTheRight(value: string)
    ensures Segments(value) == Surviving(Split('/', "/" + TrimSlash(value)), 0)
  {
    WalkBackwards(Split('/', "/" + TrimSlash(value)), 0);
  }

  // ---------- Detours ----------

  /** Normalizing goes on from where the first part led. */
  lemma SegmentsOnward(a: string, b: string)
    ensures Segments(a + "/" + b) == Walk(Segments(a), Split('/', b))
  {
    var whole := a + "/" + b;
    if a == "" {
      assert "/" + TrimSlash(whole) == "" + "/" + b;
      SplitOfJoined('/', "", b);
      EmptyWalk();
      assert ([""] + Split('/', b))[1..] == Split('/', b);
    } else {
      assert "/" + TrimSlash(whole) == ("/" + TrimSlash(a)) + "/" + b;
      SplitOfJoined('/', "/" + TrimSlash(a), b);
      WalkOnward([], Split('/', "/" + TrimSlash(a)), Split('/', b));
    }
  }

  /** A first segment that leaves the stack alone, as an empty one or a dot, can go. */
  lemma SkippedSegment(a: string, skipped: string, b: string)
    requires skipped == "" || skipped == "."
    ensures Segments(a + "/" + (skipped + "/" + b)) == Segments(a + "/" + b)
  {
    SegmentsOnward(a, b);
    SegmentsOnward(a, skipped + "/" + b);
    SplitOfText(skipped, b);
    assert ([skipped] + Split('/', b))[1..] == Split('/', b);
  }

  lemma ThereAndBack(a: string, detour: string, b: string)
    requires Plain(detour)
    ensures Segments(a + "/" + (detour + "/" + (".." + "/" + b))) == Segments(a + "/" + b)
  {
    var back := ".." + "/" + b;
    var stack := Segments(a);
    SegmentsOnward(a, b);
    SegmentsOnward(a, detour + "/" + back);
    SplitOfText(detour, back);
    SplitOfText("..", b);
    assert ([detour] + Split('/', back))[1..] == Split('/', back);
    assert ([".."] + Split('/', b))[1..] == Split('/', b);
    assert Push(Push(stack, detour), "..") == stack;
  }

  /** Going into a segment and back, a repeated slash and a dot leave the path what it was. */
  lemma DetoursVanish(a: string, detour: string, b: string)
    requires Plain(detour)
    ensures NormalizePath(a + "/" + detour + "/../" + b) == NormalizePath(a + "/" + b)
    ensures NormalizePath(a + "//" + b) == NormalizePath(a + "/" + b)
    ensures NormalizePath(a + "/./" + b) == NormalizePath(a + "/" + b)
  {
    ThereAndBack(a, detour, b);
    RegroupBack(a, detour, b);
    SameSegments(a + "/" + detour + "/../" + b, a + "/" + b);
    SkippedSegment(a, "", b);
    Regroup(a, "", "//", b);
    SameSegments(a + "//" + b, a + "/" + b);
    SkippedSegment(a, ".", b);
    Regroup(a, ".", "/./", b);
    SameSegments(a + "/./" + b, a + "/" + b);
  }

  lemma SameSegments(a: string, b: string)
    requires Segments(a) == Segments(b)
    ensures NormalizePath(a) == NormalizePath(b)
  {
  }

  lemma Regroup(a: string, piece: string, middle: string, b: string)
    requires middle == "/" + piece + "/"
    ensures a + middle + b == a + "/" + (piece + "/" + b)
  {
  }

  lemma RegroupBack(a: string, detour: string, b: string)
    ensures a + "/" + detour + "/../" + b == a + "/" + (detour + "/" + (".." + "/" + b))
  {
    Regroup(a + "/" + detour, "..", "/../", b);
    Regroup(a, detour, "/" + detour + "/", ".." + "/" + b);
    var rest := ".." + "/" + b;
    assert a + ("/" + detour + "/") + rest == a + "/" + detour + "/" + rest;
  }

  // ---------- Rules ----------

  /** The library calls the matching rests on: lower-casing, case folding, globs and the split of a port. */
  datatype Library = Library(
    lower: string -> string, equalFold: (string, string) -> bool,
    glob: (string, string) -> bool, hostOfHostPort: string -> Option<string>)

  datatype Rule = Rule(
    name: string, hosts: seq<string>, methods: seq<string>, paths: seq<string>, action: string,
    credentials: seq<string>, services: seq<string>, approvalNote: string)

  datatype Decision = Decision(rule: Option<Rule>, action: string, credentials: seq<string>, services: seq<string>)

  datatype Url = Url(scheme: string, host: string, path: string, rawPath: string, rawQuery: string)

  /** An absolute URL is one with a scheme. */
  datatype Request = Request(verb: string, host: string, url: Option<Url>)

  predicate MatchOne(lib: Library, pattern: string, value: string) {
    var lowered := lib.lower(pattern);
    || lib.glob(lowered, value)
    || (HasSuffix(lowered, "/*") && lowered[..|lowered| - 1] <= value)
    || lowered == value
  }

  predicate MatchAny(lib: Library, patterns: seq<string>, value: string) {
    exists i :: 0 <= i < |patterns| && MatchOne(lib, patterns[i], lib.lower(value))
  }

  predicate MatchHostAny(lib: Library, patterns: seq<string>, host: string) {
    var normalized := lib.lower(host);
    var hostOnly := match lib.hostOfHostPort(normalized) case Some(h) => h case None => normalized;
    exists i :: 0 <= i < |patterns| && (MatchOne(lib, patterns[i], normalized) || MatchOne(lib, patterns[i], hostOnly))
  }

  predicate ContainsFold(lib: Library, values: seq<string>, target: string) {
    exists i :: 0 <= i < |values| && lib.equalFold(values[i], target)
  }

  predicate RuleMatches(lib: Library, rule: Rule, verb: string, host: string, path: string) {
    && (|rule.methods| > 0 ==> ContainsFold(lib, rule.methods, verb))
    && (|rule.hosts| > 0 ==> MatchHostAny(lib, rule.hosts, host))
    && (|rule.paths| > 0 ==> MatchAny(lib, rule.paths, path))
  }

  /** The scan over the rules, for a path that is taken as it is. */
  function Decide(lib: Library, rules: seq<Rule>, verb: string, host: string, path: string): Decision {
    if rules == [] then Decision(None, "allow", [], [])
    else if RuleMatches(lib, rules[0], verb, host, path) then
      Decision(Some(rules[0]), rules[0].action, rules[0].credentials, rules[0].services)
    else Decide(lib, rules[1..], verb, host, path)
  }

  function Evaluate(lib: Library, rules: seq<Rule>, r: Request, targetHost: string): Decision {
    var path := if r.url.Some? then NormalizePath(r.url.value.path) else "/";
    Decide(lib, rules, r.verb, targetHost, path)
  }

  /** A pattern stands for what its glob matches, for itself, and, when it ends in a star, for all paths below it. */
  ghost predicate StandsFor(lib: Library, pattern: string, value: string) {
    var p := lib.lower(pattern);
    || lib.glob(p, value) || p == value
    || exists base, rest :: p == base + "/*" && value == base + "/" + rest
  }

  lemma PatternMeans(lib: Library, pattern: string, value: string)
    ensures MatchOne(lib, pattern, value) <==> StandsFor(lib, pattern, value)
  {
    var p := lib.lower(pattern);
    if HasSuffix(p, "/*") && p[..|p| - 1] <= value {
      var base, rest := p[..|p| - 2], value[|p| - 1..];
      assert p == base + "/*" && p[..|p| - 1] == base + "/";
      assert value == base + "/" + rest;
    }
    if base, rest :| p == base + "/*" && value == base + "/" + rest {
      assert p[|p| - 2..] == "/*" && p[..|p| - 1] == base + "/";
      assert base + "/" <= value;
    }
  }

  ghost predicate OneStandsFor(lib: Library, patterns: seq<string>, value: string) {
    exists i :: 0 <= i < |patterns| && StandsFor(lib, patterns[i], value)
  }

  /**
   What a rule asks of a request: one of its methods, one of its host patterns, with the port or
   without it, and one of its path patterns, where it has any.
   */
  lemma RuleMatchesExactlyWhen(lib: Library, rule: Rule, verb: string, host: string, path: string)
    ensures var split := lib.hostOfHostPort(lib.lower(host));
            RuleMatches(lib, rule, verb, host, path) <==>
              && (rule.methods == [] || exists i :: 0 <= i < |rule.methods| && lib.equalFold(rule.methods[i], verb))
              && (rule.hosts == [] || OneStandsFor(lib, rule.hosts, lib.lower(host))
                  || (split.Some? && OneStandsFor(lib, rule.hosts, split.value)))
              && (rule.paths == [] || OneStandsFor(lib, rule.paths, lib.lower(path)))
  {
    var split := lib.hostOfHostPort(lib.lower(host));
    PatternsMean(lib, rule.hosts, lib.lower(host));
    if split.Some? {
      PatternsMean(lib, rule.hosts, split.value);
    }
    PatternsMean(lib, rule.paths, lib.lower(path));
  }

  lemma PatternsMean(lib: Library, patterns: seq<string>, value: string)
    ensures (exists i :: 0 <= i < |patterns| && MatchOne(lib, patterns[i], value))
            <==> OneStandsFor(lib, patterns, value)
  {
    forall i | 0 <= i < |patterns|
      ensures MatchOne(lib, patterns[i], value) <==> StandsFor(lib, patterns[i], value)
    {
      PatternMeans(lib, patterns[i], value);
    }
  }

  predicate DecidedBy(d: Decision, rule: Rule) {
    d == Decision(Some(rule), rule.action, rule.credentials, rule.services)
  }

  /** Rule `i` decides exactly when it matches and no earlier rule does. */
  ghost predicate FirstMatch(lib: Library, rules: seq<Rule>, verb: string, host: string, path: string, i: nat) {
    && i < |rules| && RuleMatches(lib, rules[i], verb, host, path)
    && forall j :: 0 <= j < i ==> !RuleMatches(lib, rules[j], verb, host, path)
  }

  lemma {:induction false} FirstMatchDecides(lib: Library, rules: seq<Rule>, verb: string, host: string, path: string)
    ensures var d := Decide(lib, rules, verb, host, path);
            && (forall i: nat :: FirstMatch(lib, rules, verb, host, path, i) ==> DecidedBy(d, rules[i]))
            && ((forall i :: 0 <= i < |rules| ==> !RuleMatches(lib, rules[i], verb, host, path))
                <==> d == Decision(None, "allow", [], []))
  {
    if rules != [] {
      FirstMatchDecides(lib, rules[1..], verb, host, path);
      var d := Decide(lib, rules, verb, host, path);
      forall i: nat | FirstMatch(lib, rules, verb, host, path, i) ensures DecidedBy(d, rules[i]) {
        if i > 0 {
          assert !RuleMatches(lib, rules[0], verb, host, path);
          assert rules[1..][i - 1] == rules[i];
          assert forall j :: 0 <= j < i - 1 ==> rules[1..][j] == rules[j + 1];
          assert FirstMatch(lib, rules[1..], verb, host, path, i - 1);
        }
      }
      assert forall i :: 1 <= i < |rules| ==> rules[i] == rules[1..][i - 1];
      assert forall i :: 0 <= i < |rules[1..]| ==> rules[1..][i] == rules[i + 1];
    }
  }

  /** A request without a URL, or with an empty path, such as one to connect, is decided as one for the root. */
  lemma NoPathIsRoot(lib: Library, rules: seq<Rule>, r: Request, targetHost: string)
    requires r.url.Some? ==> r.url.value.path == ""
    ensures Evaluate(lib, rules, r, targetHost) == Decide(lib, rules, r.verb, targetHost, "/")
  {
  }

  // ---------- What the policy sees and what goes upstream ----------

  datatype TargetError = MissingUrl | MissingHost

  function TargetURL(r: Request): Result<Url, TargetError> {
    match r.url
    case None => Err(MissingUrl)
    case Some(u) =>
      if u.scheme != "" then Ok(u.(path := NormalizePath(u.path), rawPath := ""))
      else if r.host == "" then Err(MissingHost)
      else Ok(Url("http", r.host, NormalizePath(u.path), "", u.rawQuery))
  }

  /** The first steps of a forwarded request: the decision and the URL it is sent to. */
  function Forward(lib: Library, rules: seq<Rule>, r: Request): Result<(Decision, Url), TargetError> {
    match TargetURL(r)
    case Err(e) => Err(e)
    case Ok(target) => Ok((Evaluate(lib, rules, r.(url := Some(target)), target.host), target))
  }

  /** The same for a request inside an intercepted connection to `connectHost`. */
  function RoundTrip(lib: Library, rules: seq<Rule>, verb: string, inner: Url, connectHost: string): (Decision, Url) {
    var target := Url("https", connectHost, NormalizePath(inner.path), "", inner.rawQuery);
    (Evaluate(lib, rules, Request(verb, "", Some(target)), connectHost), target)
  }

  /**
   Where a request goes: an absolute URL to its own scheme and host, any other over HTTP to the host
   that the request names; it is an error to have no URL, or neither. The query goes along as it is.
   */
  lemma TargetMeans(r: Request)
    ensures var target := TargetURL(r);
            && (target == Err(MissingUrl) <==> r.url.None?)
            && (target == Err(MissingHost) <==> r.url.Some? && r.url.value.scheme == "" && r.host == "")
            && (target.Ok? ==>
                  var (u, t) := (r.url.value, target.value);
                  && t.path == NormalizePath(u.path) && t.rawPath == "" && t.rawQuery == u.rawQuery
                  && (if u.scheme != "" then t.scheme == u.scheme && t.host == u.host
                      else t.scheme == "http" && t.host == r.host))
  {
  }

  /** Inside an intercepted connection everything goes to the connection's own host, over HTTPS. */
  lemma InterceptedTargetMeans(lib: Library, rules: seq<Rule>, verb: string, inner: Url, connectHost: string)
    ensures var t := RoundTrip(lib, rules, verb, inner, connectHost).1;
            t.scheme == "https" && t.host == connectHost && t.path == NormalizePath(inner.path)
            && t.rawPath == "" && t.rawQuery == inner.rawQuery
  {
  }

  /** The rules are matched against exactly the path that goes upstream, and the escaped form is not kept beside it. */
  lemma PolicySeesUpstreamPath(lib: Library, rules: seq<Rule>, r: Request)
    ensures var f := Forward(lib, rules, r);
            f.Ok? ==>
              var (d, target) := f.value;
              && d == Decide(lib, rules, r.verb, target.host, target.path)
              && target.path == NormalizePath(r.url.value.path) && target.rawPath == ""
              && target.rawQuery == r.url.value.rawQuery
  {
    if r.url.Some? {
      Idempotent(r.url.value.path);
    }
  }

  lemma PolicySeesInterceptedPath(lib: Library, rules: seq<Rule>, verb: string, inner: Url, connectHost: string)
    ensures var (d, target) := RoundTrip(lib, rules, verb, inner, connectHost);
            && d == Decide(lib, rules, verb, connectHost, target.path)
            && target.path == NormalizePath(inner.path) && target.rawPath == ""
  {
    Idempotent(inner.path);
  }

  /** A detour in the path changes neither the decision nor the upstream path. */
  lemma DetoursDoNotChangeDecision(lib: Library, rules: seq<Rule>, verb: string, inner: Url, connectHost: string,
                                   a: string, detour: string, b: string)
    requires Plain(detour) && inner.path == a + "/" + detour + "/../" + b
    ensures RoundTrip(lib, rules, verb, inner, connectHost)
            == RoundTrip(lib, rules, verb, inner.(path := a + "/" + b), connectHost)
  {
    DetoursVanish(a, detour, b);
  }
}
