/** The session store: histories on disk stay such that reading one always yields a well-formed history. */
module SessionStore {
  import opened Messages
  import opened History
  import opened HistoryCuts

  datatype Entry = Entry(sessionId: string, updatedAt: int)

  /** Token-based pruning; a ratio or window that is not positive switches it off. */
  datatype Policy = Policy(hardClearRatio: real, modelMaxTokens: int, keepLast: int, surgical: bool, cacheTTL: int)

  /** A share of the window in whole tokens; the conversion cuts off towards zero. */
  function Threshold(ratio: real, maxTokens: int): int {
    var share := ratio * maxTokens as real;
    if share >= 0.0 then share.Floor else -(-share).Floor
  }

  function Shrunk(h: seq<Message>, p: Policy): seq<Message> {
    var n, t := Positive(p.keepLast), Threshold(p.hardClearRatio, p.modelMaxTokens);
    var light := if p.surgical then Pruned(h, n) else h;
    if Tokens(light) > t then light[Cut(light, n)..] else light
  }

  predicate Oversize(h: seq<Message>, p: Policy) {
    p.hardClearRatio > 0.0 && p.modelMaxTokens > 0 && Tokens(h) > Threshold(p.hardClearRatio, p.modelMaxTokens)
  }

  lemma ShrunkIsWellFormed(h: seq<Message>, p: Policy)
    requires WellFormed(h)
    ensures WellFormed(Shrunk(h, p))
  {
    var n := Positive(p.keepLast);
    PruneKeepsWellFormed(h, n);
    CutKeepsWellFormed(if p.surgical then Pruned(h, n) else h, n);
  }

  lemma SanitizedIsWellFormed(h: seq<Message>)
    requires Trimmed(h)
    ensures WellFormed(Sanitized(h)) && Trimmed(Sanitized(h))
  {
    SanitizeHeals(h);
    AnsweredIsWellFormed(Sanitized(h));
    StrictIsSlack(Sanitized(h));
  }

  lemma WellFormedIsTrimmed(h: seq<Message>)
    requires WellFormed(h)
    ensures Trimmed(h)
  {
    AnsweredIsWellFormed(h);
    StrictIsSlack(h);
  }

  lemma {:induction false} SanitizedSameLength(h: seq<Message>)
    ensures |Sanitized(h)| <= |h|
    ensures |Sanitized(h)| == |h| ==> Sanitized(h) == h
  {
    if h != [] {
      SanitizedSameLength(h[..|h| - 1]);
      assert h == h[..|h| - 1] + [h[|h| - 1]];
    }
  }

  /** What a reader sees of a stored history. */
  function Seen(h: seq<Message>, p: Policy, mayPrune: bool): seq<Message> {
    var clean := Sanitized(h);
    if mayPrune && Oversize(clean, p) then Shrunk(clean, p) else clean
  }

  /** What is on disk after reading h, when the rewrite after sanitizing (saved1) and the one after pruning
      (saved2) reach the disk or not. */
  function Kept(h: seq<Message>, p: Policy, mayPrune: bool, saved1: bool, saved2: bool): seq<Message> {
    var clean := Sanitized(h);
    if mayPrune && Oversize(clean, p) && saved2 then Shrunk(clean, p)
    else if |clean| < |h| && saved1 then clean
    else h
  }

  /** h ends with the messages from its n-th last assistant message of was on, when was has more than n. */
  ghost predicate KeepsRecent(was: seq<Message>, h: seq<Message>, n: nat)
    requires n > 0
  {
    |AssistantIndices(was)| > n ==>
      var recent := was[NthLast(was, n)..];
      |recent| <= |h| && h[|h| - |recent|..] == recent
  }

  /** h is a suffix of base that holds its last n assistant messages or one more, or all of base if it has no more
      than n. */
  ghost predicate CutBack(base: seq<Message>, h: seq<Message>, n: nat) {
    && |h| <= |base| && base[|base| - |h|..] == h
    && if |AssistantIndices(base)| <= n then h == base
       else |AssistantIndices(h)| == n || (|AssistantIndices(h)| == n + 1 && Calls(h[0]))
  }

  lemma CutIsBack(base: seq<Message>, n: nat)
    requires n > 0
    ensures CutBack(base, base[Cut(base, n)..], n) && KeepsRecent(base, base[Cut(base, n)..], n)
  {
    if |AssistantIndices(base)| > n {
      CutKeepsAssistants(base, n);
    }
  }

  lemma CompressingKeepsRecent(h: seq<Message>, n: nat, r: seq<Message>)
    requires n > 0 && KeepsRecent(Pruned(h, n), r, n)
    ensures KeepsRecent(h, r, n)
  {
    PrunedSkeleton(h, n);
    IndicesOfSkeleton(h, Pruned(h, n));
    if |AssistantIndices(h)| > n {
      PruneKeepsRecent(h, n);
    }
  }

  /** seen is h with its old tool results compressed, if that is to be done, and cut back only when that does not bring
      it to the limit; the last assistant messages and what follows them are unchanged. */
  ghost predicate ShortenedTo(h: seq<Message>, seen: seq<Message>, n: nat, limit: int, surgical: bool)
    requires n > 0
  {
    var base := if surgical then Pruned(h, n) else h;
    KeepsRecent(h, seen, n) && if Tokens(base) <= limit then seen == base else CutBack(base, seen, n)
  }

  lemma WholeKeepsRecent(h: seq<Message>, n: nat)
    requires n > 0
    ensures KeepsRecent(h, h, n)
  {
  }

  lemma CompressedIsShortened(h: seq<Message>, n: nat, limit: int)
    requires n > 0
    ensures var base := Pruned(h, n);
            ShortenedTo(h, if Tokens(base) > limit then base[Cut(base, n)..] else base, n, limit, true)
  {
    var base := Pruned(h, n);
    if Tokens(base) > limit {
      CutIsBack(base, n);
      CompressingKeepsRecent(h, n, base[Cut(base, n)..]);
    } else {
      WholeKeepsRecent(base, n);
      CompressingKeepsRecent(h, n, base);
    }
  }

  lemma ShrunkIsShortened(h: seq<Message>, p: Policy, n: nat, limit: int)
    requires n == Positive(p.keepLast) && limit == Threshold(p.hardClearRatio, p.modelMaxTokens)
    ensures ShortenedTo(h, Shrunk(h, p), n, limit, p.surgical)
  {
    if p.surgical {
      CompressedIsShortened(h, n, limit);
    } else {
      CutIsBack(h, n);
      WholeKeepsRecent(h, n);
    }
  }

  /** The threshold is the share itself but for a fraction, which brings it nearer to zero. */
  lemma ThresholdIsShare(ratio: real, maxTokens: int)
    ensures var share, t := ratio * maxTokens as real, Threshold(ratio, maxTokens) as real;
            if share >= 0.0 then t <= share < t + 1.0 else t - 1.0 < share <= t
  {
  }

  /** A history that may be pruned and whose estimate is above the threshold is seen shortened; any other one is seen
      whole but for its orphans. */
  lemma SeenMeans(h: seq<Message>, p: Policy, mayPrune: bool, limit: int)
    requires limit == Threshold(p.hardClearRatio, p.modelMaxTokens)
    ensures if mayPrune && p.hardClearRatio > 0.0 && p.modelMaxTokens > 0 && Tokens(Sanitized(h)) > limit then
              ShortenedTo(Sanitized(h), Seen(h, p, mayPrune), if p.keepLast <= 0 then 2 else p.keepLast, limit,
                          p.surgical)
            else Seen(h, p, mayPrune) == Sanitized(h)
  {
    ShrunkIsShortened(Sanitized(h), p, Positive(p.keepLast), limit);
  }

  /** What a read leaves on disk: what it shows if it shortened the history and the rewrite after that succeeds, else
      the history without its orphans if the rewrite after dropping them succeeds, else what was there. */
  lemma KeptMeans(h: seq<Message>, p: Policy, mayPrune: bool, saved1: bool, saved2: bool, limit: int)
    requires limit == Threshold(p.hardClearRatio, p.modelMaxTokens)
    ensures var due := mayPrune && p.hardClearRatio > 0.0 && p.modelMaxTokens > 0 && Tokens(Sanitized(h)) > limit;
            Kept(h, p, mayPrune, saved1, saved2)
            == if due && saved2 then Seen(h, p, mayPrune) else if saved1 then Sanitized(h) else h
  {
    SanitizedSameLength(h);
  }

  /** Reading touches no other file, and makes none. */
  lemma ReadingStores(files: map<string, seq<Message>>, id: string, p: Policy, mayPrune: bool, saved1: bool,
                      saved2: bool)
    ensures var files' := AfterReading(files, id, p, mayPrune, saved1, saved2);
            && files'.Keys == files.Keys
            && forall k :: k in files ==>
                 files'[k] == if k == id then Kept(files[id], p, mayPrune, saved1, saved2) else files[k]
  {
  }

  /** Reading a trimmed history yields a well-formed one and leaves a trimmed one behind. */
  lemma ReadingHeals(h: seq<Message>, p: Policy, mayPrune: bool, saved1: bool, saved2: bool)
    requires Trimmed(h)
    ensures WellFormed(Seen(h, p, mayPrune)) && Trimmed(Kept(h, p, mayPrune, saved1, saved2))
  {
    SanitizedIsWellFormed(h);
    ShrunkIsWellFormed(Sanitized(h), p);
    WellFormedIsTrimmed(Shrunk(Sanitized(h), p));
  }

  /** The files after reading session id: only its own can have changed, and only if it exists. */
  function AfterReading(files: map<string, seq<Message>>, id: string, p: Policy, mayPrune: bool, saved1: bool,
                        saved2: bool)
    : map<string, seq<Message>>
  {
    if id in files then files[id := Kept(files[id], p, mayPrune, saved1, saved2)] else files
  }

  /** What an append leaves in a file: everything, or the messages that reached it before the failure. */
  function AfterAppend(files: map<string, seq<Message>>, id: string, msgs: seq<Message>, ok: bool, reached: nat)
    : map<string, seq<Message>>
  {
    var was := if id in files then files[id] else [];
    if ok then files[id := was + msgs]
    else if reached == 0 then files
    else files[id := was + if reached < |msgs| then msgs[..reached] else msgs]
  }

  lemma {:induction false} FrontIsAnswered(h: seq<Message>, k: nat, slack: bool)
    requires Answered(h, slack) && k <= |h|
    ensures Answered(h[..k], slack)
    decreases |h|
  {
    if k == |h| {
      assert h[..k] == h;
    } else {
      FrontIsAnswered(h[..|h| - 1], k, slack);
      assert h[..|h| - 1][..k] == h[..k];
    }
  }

  lemma NothingIsNotOversize(p: Policy)
    ensures !Oversize([], p) && Sanitized([]) == []
  {
    if p.hardClearRatio > 0.0 && p.modelMaxTokens > 0 {
      assert p.hardClearRatio * p.modelMaxTokens as real >= 0.0;
    }
  }

  ghost predicate AllTrimmed(files: map<string, seq<Message>>) {
    forall id :: id in files ==> Trimmed(files[id])
  }

  lemma ReadingKeepsSound(files: map<string, seq<Message>>, id: string, p: Policy, mayPrune: bool, saved1: bool,
                          saved2: bool)
    requires AllTrimmed(files)
    ensures AllTrimmed(AfterReading(files, id, p, mayPrune, saved1, saved2))
    ensures WellFormed(Seen(if id in files then files[id] else [], p, mayPrune))
  {
    ReadingHeals(if id in files then files[id] else [], p, mayPrune, saved1, saved2);
  }

  lemma AppendKeepsSound(files: map<string, seq<Message>>, id: string, msgs: seq<Message>, ok: bool, reached: nat)
    requires AllTrimmed(files) && Answered(msgs, false)
    ensures AllTrimmed(AfterAppend(files, id, msgs, ok, reached))
  {
    var was := if id in files then files[id] else [];
    AppendKeeps(was, msgs, true);
    if reached < |msgs| {
      FrontIsAnswered(msgs, reached, false);
      AppendKeeps(was, msgs[..reached], true);
    }
  }

  /** What reading a session gives: there is none, its file cannot be read, or its history. */
  datatype Reading = NoSession | ReadFailed | Read(history: seq<Message>)

  class Manager {
    var sessions: map<string, Entry>
    var files: map<string, seq<Message>>
    var lastAPICall: map<string, int>
    const ttl: int
    const pruning: Policy

    constructor (ttl: int, pruning: Policy)
      ensures sessions == map[] && files == map[] && lastAPICall == map[]
      ensures this.ttl == ttl && this.pruning == pruning && Sound()
    {
      sessions, files, lastAPICall := map[], map[], map[];
      this.ttl, this.pruning := ttl, pruning;
    }

    /** Every stored history is a well-formed one with at most its front cut off. */
    ghost predicate Sound()
      reads this
    {
      AllTrimmed(files)
    }

    function Stored(id: string): seq<Message>
      reads this
    {
      if id in files then files[id] else []
    }

    predicate Expired(key: string, now: int)
      requires key in sessions
      reads this
    {
      ttl > 0 && now - sessions[key].updatedAt > ttl
    }

    predicate MayPrune(key: string, now: int)
      reads this
    {
      !(pruning.cacheTTL > 0 && key in lastAPICall && now - lastAPICall[key] < pruning.cacheTTL)
    }

    /** loads says whether the file can be read, saved1 and saved2 whether the rewrite after sanitizing and the one
        after pruning reach the disk. */
    method GetHistory(key: string, now: int, loads: bool, saved1: bool, saved2: bool) returns (r: Reading)
      modifies this
      ensures key !in old(sessions) ==>
                r == NoSession && sessions == old(sessions) && files == old(files) && lastAPICall == old(lastAPICall)
      ensures key in old(sessions) && old(ttl > 0 && now - sessions[key].updatedAt > ttl) ==>
                (r == NoSession && sessions == old(sessions) - {key} && lastAPICall == old(lastAPICall) - {key}
                 && files == old(files) - {old(sessions[key].sessionId)})
      ensures key in old(sessions) && !old(ttl > 0 && now - sessions[key].updatedAt > ttl) ==>
                (sessions == old(sessions) && lastAPICall == old(lastAPICall)
                 && var id := sessions[key].sessionId;
                    var was := if id in old(files) then old(files[id]) else [];
                    var recent := key in lastAPICall && now - lastAPICall[key] < pruning.cacheTTL;
                    var mayPrune := !(pruning.cacheTTL > 0 && recent);
                    if loads then
                      r == Read(Seen(was, pruning, mayPrune))
                      && files == AfterReading(old(files), id, pruning, mayPrune, saved1, saved2)
                    else r == ReadFailed && files == old(files))
      ensures old(Sound()) ==> Sound() && (r.Read? ==> WellFormed(r.history))
    {
      if key !in sessions {
        return NoSession;
      }
      if Expired(key, now) {
        Reset(key);
        return NoSession;
      }
      if !loads {
        return ReadFailed;
      }
      var id := sessions[key].sessionId;
      if Sound() {
        ReadingKeepsSound(files, id, pruning, MayPrune(key, now), saved1, saved2);
      }
      var msgs := ReadHistory(id, MayPrune(key, now), saved1, saved2);
      return Read(msgs);
    }

    /** Load, drop orphans, prune; each cleanup is written back. */
    method ReadHistory(id: string, mayPrune: bool, saved1: bool, saved2: bool) returns (msgs: seq<Message>)
      modifies this`files
      ensures msgs == Seen(old(Stored(id)), pruning, mayPrune)
      ensures files == AfterReading(old(files), id, pruning, mayPrune, saved1, saved2)
    {
      msgs := Stored(id);
      NothingIsNotOversize(pruning);
      SanitizedSameLength(msgs);
      var cleaned, dropped := SanitizeOrphans(msgs);
      if dropped > 0 {
        msgs := cleaned;
        Rewrite(id, msgs, saved1);
      }
      if mayPrune {
        var shrunk;
        msgs, shrunk := HardClear(msgs);
        if shrunk {
          Rewrite(id, msgs, saved2);
        }
      }
    }

    /** The atomic rewrite of a history file, which may fail. */
    method Rewrite(id: string, msgs: seq<Message>, saved: bool)
      modifies this`files
      ensures files == if saved then old(files)[id := msgs] else old(files)
    {
      if saved {
        files := files[id := msgs];
      }
    }

    /** The token-based part: compress old tool results, and cut if that was not enough. */
    method HardClear(h: seq<Message>) returns (msgs: seq<Message>, shrunk: bool)
      ensures shrunk == Oversize(h, pruning) && msgs == if shrunk then Shrunk(h, pruning) else h
    {
      msgs, shrunk := h, false;
      if pruning.hardClearRatio > 0.0 && pruning.modelMaxTokens > 0 {
        var threshold := Threshold(pruning.hardClearRatio, pruning.modelMaxTokens);
        var tokens := EstimateTokens(msgs);
        if tokens > threshold {
          shrunk := true;
          if pruning.surgical {
            msgs := PruneToolResults(msgs, pruning.keepLast);
          }
          tokens := EstimateTokens(msgs);
          if tokens > threshold {
            msgs := PruneKeepLast(msgs, pruning.keepLast);
          }
        }
      }
    }

    method Reset(key: string)
      modifies this
      ensures sessions == old(sessions) - {key} && lastAPICall == old(lastAPICall) - {key}
      ensures files == if key in old(sessions) then old(files) - {old(sessions[key].sessionId)} else old(files)
      ensures old(Sound()) ==> Sound()
    {
      if key in sessions {
        files := files - {sessions[key].sessionId};
      }
      sessions := sessions - {key};
      lastAPICall := lastAPICall - {key};
    }

    /** newId is the random ID a new session would get; on failure only the first reached messages get to the
        disk. */
    method AppendMessages(key: string, msgs: seq<Message>, newId: string, now: int, saved: bool, reached: nat)
      returns (ok: bool)
      modifies this
      ensures sessions
              == old(sessions)[key := Entry(if key in old(sessions) then old(sessions[key].sessionId) else newId, now)]
      ensures ok == saved && files == AfterAppend(old(files), sessions[key].sessionId, msgs, saved, reached)
      ensures lastAPICall == old(lastAPICall)
      ensures old(Sound()) && Answered(msgs, false) ==> Sound()
    {
      var id := if key in sessions then sessions[key].sessionId else newId;
      sessions := sessions[key := Entry(id, now)];
      if Sound() && Answered(msgs, false) {
        AppendKeepsSound(files, id, msgs, saved, reached);
      }
      if saved {
        files := files[id := Stored(id) + msgs];
      } else if reached > 0 {
        files := files[id := Stored(id) + if reached < |msgs| then msgs[..reached] else msgs];
      }
      return saved;
    }

    /** The rewrite is atomic: it reaches the disk whole or not at all. */
    method ReplaceHistory(key: string, msgs: seq<Message>, saved: bool) returns (ok: bool)
      modifies this
      ensures sessions == old(sessions) && lastAPICall == old(lastAPICall)
      ensures ok <==> key !in sessions || saved
      ensures files == if key in sessions && saved then old(files)[sessions[key].sessionId := msgs] else old(files)
      ensures old(Sound()) && Trimmed(msgs) ==> Sound()
    {
      if key !in sessions {
        return true;
      }
      Rewrite(sessions[key].sessionId, msgs, saved);
      return saved;
    }

    method TrimMessages(key: string, maxMessages: int, loads: bool, saved: bool) returns (ok: bool)
      modifies this
      ensures sessions == old(sessions) && lastAPICall == old(lastAPICall)
      ensures maxMessages <= 0 || key !in sessions || !loads ==> files == old(files)
      ensures maxMessages > 0 && key in sessions && loads ==>
                var id := sessions[key].sessionId;
                var was := old(Stored(id));
                if |was| <= maxMessages || !saved then files == old(files)
                else files == old(files)[id := was[|was| - maxMessages..]]
      ensures !ok <==> maxMessages > 0 && key in sessions
                       && (!loads || (!saved && |old(Stored(sessions[key].sessionId))| > maxMessages))
      ensures old(Sound()) ==> Sound()
    {
      if maxMessages <= 0 || key !in sessions {
        return true;
      }
      if !loads {
        return false;
      }
      var id := sessions[key].sessionId;
      var msgs := Stored(id);
      if |msgs| <= maxMessages {
        return true;
      }
      var cut := |msgs| - maxMessages;
      assert msgs[..cut] + msgs[cut..] == msgs;
      if Trimmed(msgs) {
        SuffixIsTrimmed(msgs[..cut], msgs[cut..]);
      }
      Rewrite(id, msgs[cut..], saved);
      return saved;
    }

    method TouchAPICall(key: string, now: int)
      modifies this`lastAPICall
      ensures lastAPICall == old(lastAPICall)[key := now]
    {
      lastAPICall := lastAPICall[key := now];
    }
  }
}
