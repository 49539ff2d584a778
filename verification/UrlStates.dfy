/**
 The URL automaton over whole URLs, and its use by the request-line scanner.
 */
module UrlStates {
  import opened HttpTypes
  import opened HttpStep
  import opened HttpRun
  import opened HttpReach

  function UrlAfter(s: UrlState, url: Bytes): UrlState
    decreases |url|
  {
    if url == [] then s else NextUrlState(UrlAfter(s, url[..|url| - 1]), url[|url| - 1])
  }

  // Where a URL starts; CONNECT takes an authority.
  function UrlStart(connect: bool): UrlState { if connect then ReqServerStart else ReqSpacesBeforeUrl }

  // The URLs the automaton accepts.
  predicate IsUrl(connect: bool, url: Bytes) {
    url != [] && UrlAfter(UrlStart(connect), url) != UrlDead && !UrlOpen(UrlAfter(UrlStart(connect), url))
  }

  lemma {:induction false} DeadUrl(url: Bytes, i: nat, s: UrlState)
    requires i <= |url| && UrlAfter(s, url[..i]) == UrlDead
    ensures UrlAfter(s, url) == UrlDead
    decreases |url|
  {
    if i == |url| {
      assert url[..i] == url;
    } else {
      assert url[..|url| - 1][..i] == url[..i];
      DeadUrl(url[..|url| - 1], i, s);
    }
  }

  predicate EndsUrl(ch: Byte) { ch == ' ' || ch == CR || ch == LF }

  predicate UrlText(url: Bytes) { forall i :: 0 <= i < |url| ==> !EndsUrl(url[i]) }

  // Dead on every byte the automaton refuses, and nowhere else.
  lemma UrlFirst(c: Config, ch: Byte, hc: Callback)
    requires Running(c) && c.p.state == AtUrl(ReqSpacesBeforeUrl) && ch != ' '
    ensures var t := NextUrlState(UrlStart(c.p.meth == CONNECT), ch);
            if t == UrlDead then Run(c, [ch], hc).p.errno == InvalidUrl
            else
              && t != ReqSpacesBeforeUrl
              && Reaches(c, [ch], hc, c.p.(state := AtUrl(t)), Push(c.log, Data(OnUrl, [ch])))
  {
    hide Run, StepEvents, NextUrlState;
    var t := NextUrlState(UrlStart(c.p.meth == CONNECT), ch);
    NeverBack(UrlStart(c.p.meth == CONNECT), ch);
    if t == UrlDead {
      RunOne(c, ch, hc);
    } else {
      ReachMark(c, ch, hc, OnUrl);
    }
  }

  lemma NeverBack(s: UrlState, ch: Byte)
    ensures NextUrlState(s, ch) != ReqSpacesBeforeUrl
  {
  }

  lemma UrlNext(c: Config, s: UrlState, ch: Byte, hc: Callback)
    requires Running(c) && c.p.state == AtUrl(s) && s != ReqSpacesBeforeUrl && !EndsUrl(ch)
    ensures var t := NextUrlState(s, ch);
            if t == UrlDead then Run(c, [ch], hc).p.errno == InvalidUrl
            else
              && t != ReqSpacesBeforeUrl
              && Reaches(c, [ch], hc, c.p.(state := AtUrl(t)), Push(c.log, Data(OnUrl, [ch])))
  {
    hide Run, StepEvents, NextUrlState;
    NeverBack(s, ch);
    if NextUrlState(s, ch) == UrlDead {
      RunOne(c, ch, hc);
    } else {
      ReachData(c, ch, hc, OnUrl);
    }
  }

  // The request-line scanner follows the automaton and reports the URL.
  lemma {:induction false} UrlRun(c: Config, url: Bytes, hc: Callback)
    requires Running(c) && c.p.state == AtUrl(ReqSpacesBeforeUrl) && url != [] && UrlText(url)
    ensures var t := UrlAfter(UrlStart(c.p.meth == CONNECT), url);
            if t == UrlDead then Run(c, url, hc).p.errno == InvalidUrl
            else t != ReqSpacesBeforeUrl && Reaches(c, url, hc, c.p.(state := AtUrl(t)), Push(c.log, Data(OnUrl, url)))
    decreases |url|
  {
    hide Run, NextUrlState, Push;
    var s := UrlStart(c.p.meth == CONNECT);
    var u, ch := url[..|url| - 1], url[|url| - 1];
    assert url == u + [ch];
    RunConcat(c, u, [ch], hc);
    if u == [] {
      assert url == [ch];
      UrlFirst(c, ch, hc);
    } else {
      UrlRun(c, u, hc);
      var d := Run(c, u, hc);
      if UrlAfter(s, u) == UrlDead {
        RunStopped(d, [ch], hc);
        assert NextUrlState(UrlDead, ch) == UrlDead by { DeadStays(ch); }
      } else {
        UrlNext(d, UrlAfter(s, u), ch, hc);
        PushSplit(c.log, OnUrl, u, [ch]);
      }
    }
  }

  lemma DeadStays(ch: Byte)
    ensures NextUrlState(UrlDead, ch) == UrlDead
  {
  }

  // A URL and the byte behind it: the request line goes on exactly if the automaton accepts the
  // URL, and then the whole URL has been reported.
  lemma UrlScanned(c: Config, url: Bytes, ch: Byte, hc: Callback)
    requires Running(c) && c.p.state == AtUrl(ReqSpacesBeforeUrl) && url != [] && UrlText(url) && EndsUrl(ch)
    ensures var d := Run(c, url + [ch], hc);
            && (d.p.errno == OK <==> IsUrl(c.p.meth == CONNECT, url))
            && (d.p.errno == OK ==> Running(d) && d.log == Push(c.log, Data(OnUrl, url)))
            && (d.p.errno == OK && ch == ' ' ==> d.p == c.p.(state := AtVersion(ReqHttpStart)))
  {
    hide Run, NextUrlState, StepEvents, Push;
    UrlRun(c, url, hc);
    RunConcat(c, url, [ch], hc);
    var d := Run(c, url, hc);
    if d.p.errno == OK {
      PushUrl(c.log, url);
      if UrlOpen(d.p.state.url) {
        RunOne(d, ch, hc);
      } else {
        ReachFlush(d, ch, hc, OnUrl);
      }
    } else {
      RunStopped(d, [ch], hc);
    }
  }

  lemma PushUrl(log: seq<Event>, url: Bytes)
    ensures EndsWith(Push(log, Data(OnUrl, url)), OnUrl)
  {
  }
}
