/**
  Names and paths: how an invoke point is turned into a lookup path (utils.go), how a service is
  published (server.go) and how a request is routed to a service (server.go).
 */
module Naming {
  import opened Basics

  // ------------------------------------------------------------------ package strings

  /** The first index of `c` in `s`, or |s|. */
  function IndexOf(s: string, c: char): (i: nat)
    ensures i <= |s|
    ensures i < |s| ==> s[i] == c
    ensures c !in s[..i]
  {
    if s == "" || s[0] == c then 0 else 1 + IndexOf(s[1..], c)
  }

  function LastIndexOf(s: string, c: char): (r: Option<nat>)
    ensures r.None? <==> c !in s
    ensures r.Some? ==> r.value < |s| && s[r.value] == c && c !in s[r.value + 1..]
  {
    if s == "" then None
    else if s[|s| - 1] == c then Some(|s| - 1)
    else LastIndexOf(s[..|s| - 1], c)
  }

  function Split(s: string, sep: char): (pieces: seq<string>)
    ensures pieces != []
    decreases |s|
  {
    var i := IndexOf(s, sep);
    if i == |s| then [s] else [s[..i]] + Split(s[i + 1..], sep)
  }

  function TrimLeft(s: string): (t: string)
    ensures t != "" ==> t[0] != ' '
    ensures s != "" && s[0] != ' ' ==> t == s
  {
    if s != "" && s[0] == ' ' then TrimLeft(s[1..]) else s
  }

  function TrimRight(s: string): (t: string)
    ensures t <= s
    ensures forall i :: |t| <= i < |s| ==> s[i] == ' '
  {
    if s != "" && s[|s| - 1] == ' ' then TrimRight(s[..|s| - 1]) else s
  }

  function Trim(s: string): string {
    TrimRight(TrimLeft(s))
  }

  /** Trimming takes spaces off both ends, all of them and nothing else. */
  lemma TrimExact(s: string) returns (from: nat, to: nat)
    ensures from <= to <= |s| && Trim(s) == s[from..to]
    ensures forall i :: 0 <= i < from || to <= i < |s| ==> s[i] == ' '
    ensures from < to ==> s[from] != ' ' && s[to - 1] != ' '
  {
    var left := TrimLeft(s);
    TrimLeftExact(s);
    TrimRightExact(left);
    var middle := TrimRight(left);
    from := |s| - |left|;
    to := from + |middle|;
    hide TrimLeft, TrimRight;
    assert s[from..to] == left[..|middle|] == middle;
    forall i | to <= i < |s| ensures s[i] == ' ' {
      assert s[i] == left[i - from];
    }
  }

  lemma {:induction false} TrimLeftExact(s: string)
    ensures |TrimLeft(s)| <= |s| && TrimLeft(s) == s[|s| - |TrimLeft(s)|..]
    ensures forall i :: 0 <= i < |s| - |TrimLeft(s)| ==> s[i] == ' '
  {
    if s != "" && s[0] == ' ' {
      TrimLeftExact(s[1..]);
      assert forall i :: 1 <= i < |s| ==> s[i] == s[1..][i - 1];
    }
  }

  lemma {:induction false} TrimRightExact(s: string)
    ensures TrimRight(s) != "" ==> TrimRight(s)[|TrimRight(s)| - 1] != ' '
  {
    if s != "" && s[|s| - 1] == ' ' {
      TrimRightExact(s[..|s| - 1]);
    }
  }

  /** There is one piece more than separators. */
  lemma {:induction false} SplitCount(s: string, sep: char)
    ensures |Split(s, sep)| == multiset(s)[sep] + 1
    decreases |s|
  {
    var i := IndexOf(s, sep);
    if i < |s| {
      SplitCount(s[i + 1..], sep);
      assert s == s[..i] + [sep] + s[i + 1..];
    } else {
      assert s[..i] == s;
    }
  }

  lemma {:induction false} IndexIs(s: string, c: char, i: nat)
    requires i < |s| && s[i] == c && c !in s[..i]
    ensures IndexOf(s, c) == i
  {
    if i > 0 {
      assert s[0] == s[..i][0];
      assert s[1..][..i - 1] == s[..i][1..];
      IndexIs(s[1..], c, i - 1);
    }
  }

  lemma {:induction false} LastIndexIs(s: string, c: char, i: nat)
    requires i < |s| && s[i] == c && c !in s[i + 1..]
    ensures LastIndexOf(s, c) == Some(i)
  {
    if i < |s| - 1 {
      assert s[|s| - 1] == s[i + 1..][|s| - i - 2];
      assert s[..|s| - 1][i + 1..] == s[i + 1..][..|s| - i - 2];
      LastIndexIs(s[..|s| - 1], c, i);
    }
  }

  lemma JoinSplit(a: string, b: string, sep: char)
    requires sep !in a
    ensures Split(a + [sep] + b, sep) == [a] + Split(b, sep)
  {
    var s := a + [sep] + b;
    assert s[..|a|] == a && s[|a| + 1..] == b;
    IndexIs(s, sep, |a|);
  }

  // ------------------------------------------------------------------ the source's functions

  /** TransformInvokePointToPath; `None` is ErrInvalidInvokePoint. */
  function LookupPath(invokePoint: string): Option<string> {
    var sp := Split(invokePoint, ':');
    if |sp| != 2 then None
    else Some("/" + sp[0] + "/" + Split(sp[1], '.')[0])
  }

  /** The path under which `register` and `endpointOf` publish a service. */
  function EndpointPath(psm: string, serviceName: string, address: string): string {
    "/" + psm + "/" + Trim(serviceName) + "/" + address
  }

  /** The service and method that readRequestHeader looks up. */
  function Route(serviceMethod: string): Option<(string, string)> {
    match LastIndexOf(serviceMethod, '.')
    case None => None
    case Some(dot) => Some((serviceMethod[..dot], serviceMethod[dot + 1..]))
  }

  // ------------------------------------------------------------------ what they promise

  /**
    An invoke point is accepted exactly when it has one colon; the path is then what comes before
    the colon, and what comes after it up to the first dot.
   */
  lemma AcceptedInvokePoint(invokePoint: string)
    ensures LookupPath(invokePoint).Some? <==> multiset(invokePoint)[':'] == 1
    ensures LookupPath(invokePoint).Some? ==>
              var i := IndexOf(invokePoint, ':');
              && i < |invokePoint| && ':' !in invokePoint[i + 1..]
              && var tail := invokePoint[i + 1..];
                 LookupPath(invokePoint).value == "/" + invokePoint[..i] + "/" + tail[..IndexOf(tail, '.')]
  {
    SplitCount(invokePoint, ':');
    if LookupPath(invokePoint).Some? {
      TwoPieces(invokePoint, ':');
      FirstPieceOf(invokePoint[IndexOf(invokePoint, ':') + 1..], '.');
    }
  }

  lemma TwoPieces(s: string, sep: char)
    requires |Split(s, sep)| == 2
    ensures var i := IndexOf(s, sep);
            i < |s| && Split(s, sep) == [s[..i], s[i + 1..]] && sep !in s[i + 1..]
  {
    var tail := s[IndexOf(s, sep) + 1..];
    assert tail[..|tail|] == tail;
  }

  lemma FirstPieceOf(s: string, sep: char)
    ensures Split(s, sep)[0] == s[..IndexOf(s, sep)]
  {
    assert s[..|s|] == s;
  }

  lemma RouteRecovers(service: string, name: string)
    requires '.' !in name
    ensures Route(service + "." + name) == Some((service, name))
  {
    var s := service + "." + name;
    assert s[..|service|] == service && s[|service| + 1..] == name;
    LastIndexIs(s, '.', |service|);
  }

  lemma PathOf(psm: string, service: string, name: string)
    requires ':' !in psm && ':' !in service && ':' !in name
    ensures LookupPath(psm + ":" + service + "." + name)
            == Some("/" + psm + "/" + service[..IndexOf(service, '.')])
  {
    var tail := service + "." + name;
    assert psm + ":" + service + "." + name == psm + [':'] + tail;
    assert ':' !in tail;
    PathOfTail(psm, tail);
    FirstPiece(service, name);
  }

  lemma PathOfTail(psm: string, tail: string)
    requires ':' !in psm && ':' !in tail
    ensures LookupPath(psm + [':'] + tail) == Some("/" + psm + "/" + Split(tail, '.')[0])
  {
    JoinSplit(psm, tail, ':');
    assert IndexOf(tail, ':') == |tail|;
  }

  lemma FirstPiece(service: string, name: string)
    ensures Split(service + "." + name, '.')[0] == service[..IndexOf(service, '.')]
  {
    var i, tail := IndexOf(service, '.'), service + "." + name;
    assert tail[..i] == service[..i];
    IndexIs(tail, '.', i);
  }

  lemma CancelPrefix(p: string, a: string, b: string)
    ensures p + a <= p + b <==> a <= b
  {
    if p + a <= p + b {
      forall i | 0 <= i < |a| ensures a[i] == b[i] {
        assert (p + a)[|p| + i] == (p + b)[|p| + i];
      }
    }
  }

  /** The name before the first dot, followed by a slash, opens the published name only when both agree. */
  lemma HeadMatches(service: string, address: string)
    ensures service[..IndexOf(service, '.')] + "/" <= Trim(service) + "/" + address
            <==> '.' !in service && Trim(service) == service
  {
    var i := IndexOf(service, '.');
    var head, lhs, rhs := service[..i], service[..i] + "/", Trim(service) + "/" + address;
    assert '.' !in service ==> i == |service| && head == service;
    if !('.' !in service && Trim(service) == service) {
      var t := |Trim(service)|;
      if service != "" && service[0] == ' ' {
        assert lhs[0] == ' ' && rhs[0] != ' ';
      } else if i < |service| {
        assert TrimLeft(service) == service;
        assert t > i;
        assert lhs[i] == '/' && rhs[i] == '.';
      } else {
        assert service[..i] == service;
        assert TrimLeft(service) == service && t < |service|;
        assert lhs[t] == ' ' && rhs[t] == '/';
      }
    }
  }

  /**
    Naming agreement. The lookup path plus "/" opens the published endpoint path exactly when the
    service name has no dot and no surrounding spaces; routing recovers the service name always.
   */
  lemma NamingAgreement(psm: string, service: string, name: string, address: string)
    requires ':' !in psm && ':' !in service && ':' !in name && '.' !in name
    ensures Route(service + "." + name) == Some((service, name))
    ensures LookupPath(psm + ":" + service + "." + name).Some?
    ensures LookupPath(psm + ":" + service + "." + name).value + "/" <= EndpointPath(psm, service, address)
            <==> '.' !in service && Trim(service) == service
  {
    RouteRecovers(service, name);
    PathOf(psm, service, name);
    var p, head := "/" + psm + "/", service[..IndexOf(service, '.')];
    assert "/" + psm + "/" + head + "/" == p + (head + "/");
    assert EndpointPath(psm, service, address) == p + (Trim(service) + "/" + address);
    CancelPrefix(p, head + "/", Trim(service) + "/" + address);
    HeadMatches(service, address);
  }

  /** The published path has the PSM, the trimmed service name and the address, in this order. */
  lemma EndpointParts(psm: string, service: string, address: string)
    requires '/' !in psm && '/' !in service
    ensures Split(EndpointPath(psm, service, address), '/') == ["", psm, Trim(service)] + Split(address, '/')
  {
    hide Split, Trim;
    var from, to := TrimExact(service);
    var name := Trim(service);
    assert '/' !in name;
    var tail := name + ['/'] + address;
    var rest := psm + ['/'] + tail;
    PathRegrouped(psm, name, address);
    JoinSplit("", rest, '/');
    JoinSplit(psm, tail, '/');
    JoinSplit(name, address, '/');
    assert [""] + ([psm] + ([name] + Split(address, '/'))) == ["", psm, name] + Split(address, '/');
  }

  lemma PathRegrouped(psm: string, name: string, address: string)
    ensures "/" + psm + "/" + name + "/" + address == "" + ['/'] + (psm + ['/'] + (name + ['/'] + address))
  {
  }

  // ------------------------------------------------------------------ WrapArrayErrs

  function Lines(texts: seq<string>): string {
    if texts == [] then "" else Lines(texts[..|texts| - 1]) + texts[|texts| - 1] + "\n"
  }

  /** `None` is a nil error. An error list is lost only when it is empty, whatever the texts are. */
  method WrapArrayErrs(texts: seq<string>) returns (wrapped: Option<string>)
    ensures wrapped == if texts == [] then None else Some(Lines(texts))
  {
    var sb := "";
    for i := 0 to |texts|
      invariant sb == Lines(texts[..i])
    {
      assert texts[..i + 1][..i] == texts[..i];
      sb := sb + texts[i] + "\n";
    }
    assert texts[..|texts|] == texts;
    NewlineSurvives(texts);
    wrapped := if Trim(sb) == "" then None else Some(sb);
  }

  lemma NewlineSurvives(texts: seq<string>)
    ensures Trim(Lines(texts)) == "" <==> texts == []
  {
    if texts != [] {
      LastSurvives(Lines(texts));
    }
  }

  lemma {:induction false} LastSurvives(s: string)
    requires s != "" && s[|s| - 1] != ' '
    ensures Trim(s) != ""
  {
    if s[0] == ' ' {
      assert s[1..][|s| - 2] == s[|s| - 1];
      LastSurvives(s[1..]);
    }
  }

  lemma {:induction false} LinesCons(texts: seq<string>)
    requires texts != []
    ensures Lines(texts) == texts[0] + ['\n'] + Lines(texts[1..])
  {
    var n := |texts| - 1;
    if n == 0 {
      assert texts[..0] == [] && texts[1..] == [];
      assert Lines([]) == "";
    } else {
      var first, middle, last := texts[0] + ['\n'], texts[1..n], texts[n] + "\n";
      LinesCons(texts[..n]);
      assert texts[..n][1..] == middle && texts[1..][..n - 1] == middle && texts[1..][n - 1] == texts[n];
      LinesSnoc(texts);
      LinesSnoc(texts[1..]);
      hide Lines;
      Associate(first, Lines(middle), last);
    }
  }

  lemma LinesSnoc(texts: seq<string>)
    requires texts != []
    ensures Lines(texts) == Lines(texts[..|texts| - 1]) + (texts[|texts| - 1] + "\n")
  {
    Associate(Lines(texts[..|texts| - 1]), texts[|texts| - 1], "\n");
  }

  lemma Associate(a: string, b: string, c: string)
    ensures (a + b) + c == a + (b + c)
  {
  }

  /** The wrapped error has every text on a line of its own, in order. */
  lemma {:induction false} LinesAreTexts(texts: seq<string>)
    requires forall i :: 0 <= i < |texts| ==> '\n' !in texts[i]
    ensures Split(Lines(texts), '\n') == texts + [""]
    decreases |texts|
  {
    if texts == [] {
      assert Lines(texts) == "";
    } else {
      LinesCons(texts);
      JoinSplit(texts[0], Lines(texts[1..]), '\n');
      LinesAreTexts(texts[1..]);
      assert texts == [texts[0]] + texts[1..];
    }
  }

  /** Whatever the texts are, each of them follows the lines of those before it. */
  lemma {:induction false} LinesInOrder(texts: seq<string>, i: nat)
    requires i < |texts|
    ensures Lines(texts[..i]) + texts[i] + "\n" <= Lines(texts)
    decreases |texts|
  {
    var n := |texts| - 1;
    if i < n {
      LinesInOrder(texts[..n], i);
      assert texts[..n][..i] == texts[..i];
    }
  }
}
