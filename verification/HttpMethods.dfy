/**
 The method recogniser: which words the request line may start with.
 */
module HttpMethods {
  import opened Basics
  import opened HttpTypes
  import opened HttpStep
  import opened HttpRun

  // The candidate whose name the recogniser is comparing with when it leaves it for m, and how
  // many bytes it has read by then.
  function Origin(m: Method): Option<(Method, nat)> {
    match m
    case PUT | PATCH | PROPFIND => Some((POST, 1))
    case CHECKOUT => Some((CONNECT, 1))
    case COPY => Some((CONNECT, 2))
    case MOVE | MERGE | MSEARCH => Some((MKCOL, 1))
    case MKACTIVITY => Some((MKCOL, 2))
    case MKCALENDAR => Some((MKCOL, 3))
    case SEARCH => Some((SUBSCRIBE, 1))
    case REBIND => Some((REPORT, 2))
    case PROPPATCH => Some((PROPFIND, 4))
    case PURGE => Some((PUT, 2))
    case LINK => Some((LOCK, 1))
    case UNSUBSCRIBE | UNBIND => Some((UNLOCK, 2))
    case UNLINK => Some((UNLOCK, 3))
    case _ => None
  }

  // A method that is reached in two switches.
  predicate Late(m: Method) { m == PROPPATCH || m == PURGE }

  // The candidate after i bytes of m's name.
  function Candidate(m: Method, i: nat): Method
    decreases Late(m), Origin(m).Some?
  {
    match Origin(m)
    case None => m
    case Some((c, at)) => if i <= at then Candidate(c, i) else m
  }

  predicate HasPrefix(m: Method, u: Bytes) { u <= MethodName(m) }

  // What the recogniser makes of the byte ch after i bytes.
  function Follow(m: Method, i: nat, ch: Byte): Option<Method> {
    if i < |MethodName(m)| && ch == MethodName(m)[i] then Some(m) else NextCandidate(m, i, ch)
  }

  // Each switch is to a method that agrees with the candidate so far, and on no other byte.
  lemma OriginShares(m: Method)
    requires Origin(m).Some?
    ensures var (c, at) := Origin(m).value; var n, o := MethodName(m), MethodName(c);
            && at < |n| && at < |o| && n[..at] == o[..at] && n[at] != o[at]
            && NextCandidate(c, at, n[at]) == Some(m)
            && (Origin(c).Some? ==> Origin(c).value.1 < at)
  {
  }

  lemma OnlySwitches(m: Method, i: nat, ch: Byte)
    requires NextCandidate(m, i, ch).Some?
    ensures var n := NextCandidate(m, i, ch).value; Origin(n) == Some((m, i))
  {
    hide MethodName;
  }

  lemma SwitchByte(m: Method, i: nat, ch: Byte)
    requires NextCandidate(m, i, ch).Some?
    ensures var n := MethodName(NextCandidate(m, i, ch).value); i < |n| && n[i] == ch
  {
  }

  lemma FollowSound(m: Method, i: nat, ch: Byte)
    requires 1 <= i <= |MethodName(m)| && Follow(m, i, ch).Some?
    ensures var n := MethodName(Follow(m, i, ch).value);
            i < |n| && n[..i + 1] == MethodName(m)[..i] + [ch]
  {
    hide MethodName, NextCandidate;
    var n := MethodName(Follow(m, i, ch).value);
    if !(i < |MethodName(m)| && ch == MethodName(m)[i]) {
      OnlySwitches(m, i, ch);
      OriginShares(NextCandidate(m, i, ch).value);
      SwitchByte(m, i, ch);
    }
    assert n[..i + 1] == n[..i] + [n[i]];
  }

  // No switch is missing.
  lemma {:induction false} FollowComplete(m: Method, i: nat)
    requires 1 <= i < |MethodName(m)|
    ensures Follow(Candidate(m, i), i, MethodName(m)[i]) == Some(Candidate(m, i + 1))
    decreases Late(m), Origin(m).Some?
  {
    hide MethodName, NextCandidate;
    if Origin(m).Some? {
      OriginShares(m);
      var (c, at) := Origin(m).value;
      if i < at {
        assert MethodName(m)[i] == MethodName(m)[..at][i] == MethodName(c)[..at][i];
        FollowComplete(c, i);
      }
    }
  }

  lemma FirstSound(ch: Byte)
    requires FirstCandidate(ch).Some?
    ensures var n := MethodName(FirstCandidate(ch).value); |n| > 1 && n[0] == ch && IsAlpha(ch)
  {
  }

  lemma {:induction false} FirstComplete(m: Method)
    ensures |MethodName(m)| > 1 && FirstCandidate(MethodName(m)[0]) == Some(Candidate(m, 1))
    decreases Late(m), Origin(m).Some?
  {
    hide FirstCandidate;
    if Origin(m).Some? {
      OriginShares(m);
      var (c, at) := Origin(m).value;
      assert MethodName(m)[0] == MethodName(m)[..at][0] == MethodName(c)[..at][0];
      FirstComplete(c);
    } else {
      FirstOriginal(m);
    }
  }

  lemma FirstOriginal(m: Method)
    requires Origin(m) == None
    ensures |MethodName(m)| > 1 && FirstCandidate(MethodName(m)[0]) == Some(m)
  {
  }

  lemma CandidateLast(m: Method, i: nat)
    requires i >= |MethodName(m)|
    ensures Candidate(m, i) == m
  {
    hide MethodName, NextCandidate;
    if Origin(m).Some? {
      OriginShares(m);
    }
  }

  lemma NoControls(m: Method, i: nat)
    requires i < |MethodName(m)|
    ensures MethodName(m)[i] > ' '
  {
  }

  // ---------------------------------------------------------------- runs

  ghost predicate Viable(u: Bytes) { exists m :: HasPrefix(m, u) }

  // After the bytes u, which are the beginning of the current candidate's name.
  ghost predicate Reading(p: Parser, u: Bytes) {
    && p.errno == OK && p.state == AtStart(ReqMethod) && p.index == |u| >= 1
    && HasPrefix(p.meth, u) && forall m :: HasPrefix(m, u) ==> p.meth == Candidate(m, |u|)
  }

  lemma InMethodFollows(p: Parser, u: Bytes, ch: Byte)
    requires Reading(p, u) && ch != ' '
    ensures var r := InMethod(p, ch);
            if Viable(u + [ch]) then !r.exit && Reading(r.p, u + [ch]) else r.p.errno != OK
  {
    hide MethodName, NextCandidate, Candidate;
    var r, v := InMethod(p, ch), u + [ch];
    assert v[..|u|] == u && v[|u|] == ch;
    if ch != '\0' && Follow(p.meth, |u|, ch).Some? {
      FollowSound(p.meth, |u|, ch);
      assert HasPrefix(r.p.meth, v);
    }
    forall m | HasPrefix(m, v)
      ensures ch != '\0' && Follow(p.meth, |u|, ch) == Some(Candidate(m, |v|))
    {
      assert MethodName(m)[..|v|] == v;
      assert HasPrefix(m, u);
      NoControls(m, |u|);
      FollowComplete(m, |u|);
    }
  }

  lemma StartRequestFollows(p: Parser, ch: Byte)
    requires p.errno == OK && ch != CR && ch != LF
    ensures var r := StartRequest(p, ch);
            if Viable([ch]) then !r.exit && Reading(r.p, [ch]) else r.p.errno != OK
  {
    hide MethodName, FirstCandidate, Candidate, IsAlpha;
    if FirstCandidate(ch).Some? {
      FirstSound(ch);
      assert HasPrefix(FirstCandidate(ch).value, [ch]);
    }
    forall m | HasPrefix(m, [ch])
      ensures FirstCandidate(ch) == Some(Candidate(m, 1))
    {
      FirstComplete(m);
    }
  }

  lemma Shorter(u: Bytes, i: nat)
    requires i <= |u| && Viable(u)
    ensures Viable(u[..i])
  {
    var m :| HasPrefix(m, u);
    assert HasPrefix(m, u[..i]);
  }

  // The recogniser fails on the first byte that no method name allows.
  lemma {:induction false} WordRun(c: Config, w: Bytes, hc: Callback)
    requires Running(c) && c.p.state == AtStart(StartReq) && ' ' !in w
    requires w != [] && w[0] != CR && w[0] != LF
    ensures var d := Run(c, w, hc);
            if Viable(w) then Running(d) && Reading(d.p, w) else d.p.errno != OK
    decreases |w|
  {
    hide InMethod, StartRequest, Reading, Viable, StepEvents;
    var u, ch := w[..|w| - 1], w[|w| - 1];
    assert w == u + [ch];
    RunConcat(c, u, [ch], hc);
    var e := Run(c, u, hc);
    if u == [] {
      StartRequestFollows(c.p, ch);
      RunOne(c, ch, hc);
    } else {
      WordRun(c, u, hc);
      if Viable(u) {
        ReadingState(e.p, u);
        InMethodFollows(e.p, u, ch);
        RunOne(e, ch, hc);
      } else {
        RunStopped(e, [ch], hc);
        if Viable(w) {
          Shorter(w, |u|);
        }
      }
    }
    ReadingOk(Run(c, w, hc).p, w);
  }

  lemma ReadingState(p: Parser, u: Bytes)
    requires Reading(p, u)
    ensures p.state == AtStart(ReqMethod)
  {
  }

  lemma ReadingOk(p: Parser, u: Bytes)
    ensures Reading(p, u) ==> p.errno == OK
  {
  }

  // A word and a space take the parser to the URL exactly if the word is one of the 33 method
  // names, and the method is then the one of that name.
  lemma MethodRecogniser(c: Config, w: Bytes, hc: Callback)
    requires Running(c) && c.p.state == AtStart(StartReq) && ' ' !in w
    requires w != [] ==> w[0] != CR && w[0] != LF
    ensures var d := Run(c, w + " ", hc);
            && (d.p.errno == OK && d.p.state == AtUrl(ReqSpacesBeforeUrl) <==> exists m :: MethodName(m) == w)
            && forall m :: MethodName(m) == w ==> d.p.meth == m
  {
    hide MethodName, Candidate, StepEvents, NextCandidate;
    RunConcat(c, w, " ", hc);
    var e := Run(c, w, hc);
    if w == [] {
      RunOne(c, ' ', hc);
      forall m ensures MethodName(m) != w {
        FirstComplete(m);
      }
    } else {
      WordRun(c, w, hc);
      forall m | MethodName(m) == w ensures HasPrefix(m, w) && Candidate(m, |w|) == m {
        CandidateLast(m, |w|);
      }
      if Viable(w) {
        RunOne(e, ' ', hc);
        SpaceEnds(e.p, w);
      } else {
        RunStopped(e, " ", hc);
      }
    }
  }

  lemma SpaceEnds(p: Parser, w: Bytes)
    requires Reading(p, w)
    ensures var r := InMethod(p, ' ');
            if MethodName(p.meth) == w then r.p == p.(index := p.index + 1, state := AtUrl(ReqSpacesBeforeUrl))
            else r.p.errno != OK
  {
    hide MethodName, Candidate;
    if |w| < |MethodName(p.meth)| {
      NoControls(p.meth, |w|);
    }
  }
}
