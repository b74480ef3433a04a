/** The RTDE handshake: a client that negotiates, narrows and retries against a
    robot that may answer anything, not answer, or drop the connection. */
module RtdeClient {
  import opened Wrappers

  const MAX_PROTOCOL_VERSION: nat := 2
  const MAX_REQUEST_RETRIES: nat := 5
  const CB3_MAX_FREQUENCY: real := 125.0
  const URE_MAX_FREQUENCY: real := 500.0

  datatype ClientState = Uninitialized | Initializing | Initialized | Running | Paused

  /** One entry of a setup answer's comma-separated list of types. */
  datatype Ack = NotFound | InUse | Typed(name: string)

  datatype Request =
    | Nothing
    | ProtocolRequest(version: nat)
    | VersionRequest
    | OutputsRequest(frequency: Option<real>, recipe: seq<string>)
    | InputsRequest(recipe: seq<string>)
    | StartRequest
    | PauseRequest

  datatype Reply =
    | ProtocolReply(accepted: bool)
    | VersionReply(major: nat)
    | OutputsReply(types: seq<Ack>)
    | InputsReply(types: seq<Ack>, recipeId: nat)
    | StartReply(accepted: bool)
    | PauseReply(accepted: bool)
    | Data(timestamp: real)
    | OtherReply

  /** The robot and the network: what the next exchange brings, given the latest request that
      went out and how many packages have come in since. */
  datatype Situation = Situation(time: nat, request: Request, answered: nat)

  datatype Answer = Answer(connected: bool, written: bool, reply: Option<Reply>, ms: nat)

  type Robot = Situation -> Answer

  /** What the client last saw of the robot: whether its last request went out, what the last
      attempt to receive brought, and the last output recipe it asked for. */
  datatype Seen = Seen(written: bool, reply: Option<Reply>, outputs: Request)

  /** How a call ends: normally, by an exception, or in a failed assertion or a null
      dereference, after which nothing is promised. */
  datatype Outcome<T> = Done(value: T) | Threw | Aborted

  // ---------------------------------------------------------------------
  // Recipe narrowing
  // ---------------------------------------------------------------------

  /** The variables not answered NOT_FOUND. */
  function Kept(recipe: seq<string>, types: seq<Ack>): seq<string>
    requires |recipe| == |types|
  {
    if recipe == [] then []
    else
      var n := |recipe| - 1;
      Kept(recipe[..n], types[..n]) + if types[n].NotFound? then [] else [recipe[n]]
  }

  predicate AllFound(types: seq<Ack>) { forall i :: 0 <= i < |types| ==> !types[i].NotFound? }

  predicate AllUsable(types: seq<Ack>) { forall i :: 0 <= i < |types| ==> types[i].Typed? }

  /** `s` arises from `t` by deleting entries. */
  predicate Subsequence(s: seq<string>, t: seq<string>) {
    if s == [] then true
    else if t == [] then false
    else if s[|s| - 1] == t[|t| - 1] && Subsequence(s[..|s| - 1], t[..|t| - 1]) then true
    else Subsequence(s, t[..|t| - 1])
  }

  lemma {:induction false} KeptNarrows(recipe: seq<string>, types: seq<Ack>)
    requires |recipe| == |types|
    ensures Subsequence(Kept(recipe, types), recipe)
    ensures |Kept(recipe, types)| <= |recipe|
    ensures |Kept(recipe, types)| == |recipe| <==> AllFound(types)
    ensures AllFound(types) ==> Kept(recipe, types) == recipe
  {
    if recipe != [] {
      var n := |recipe| - 1;
      var shorter, fewer := recipe[..n], types[..n];
      KeptNarrows(shorter, fewer);
      var kept := Kept(shorter, fewer);
      if types[n].NotFound? {
        assert Kept(recipe, types) == kept;
      } else {
        assert (kept + [recipe[n]])[..|kept|] == kept;
        assert AllFound(fewer) ==> AllFound(types);
        assert AllFound(types) ==> shorter + [recipe[n]] == recipe;
      }
    }
  }

  /** Some occurrence of the variable was found by the robot. */
  predicate Found(recipe: seq<string>, types: seq<Ack>, x: string)
    requires |recipe| == |types|
  {
    exists i :: 0 <= i < |recipe| && recipe[i] == x && !types[i].NotFound?
  }

  lemma FoundSplit(recipe: seq<string>, types: seq<Ack>, x: string)
    requires |recipe| == |types| > 0
    ensures var n := |recipe| - 1;
            Found(recipe, types, x) <==> Found(recipe[..n], types[..n], x) || (!types[n].NotFound? && recipe[n] == x)
  {
    var n := |recipe| - 1;
    if i :| 0 <= i < n && recipe[i] == x && !types[i].NotFound? {
      assert recipe[..n][i] == x && !types[..n][i].NotFound?;
    }
    if Found(recipe[..n], types[..n], x) {
      var i :| 0 <= i < n && recipe[..n][i] == x && !types[..n][i].NotFound?;
      assert recipe[i] == x && !types[i].NotFound?;
    }
  }

  lemma {:induction false} KeptExactly(recipe: seq<string>, types: seq<Ack>, x: string)
    requires |recipe| == |types|
    ensures x in Kept(recipe, types) <==> Found(recipe, types, x)
  {
    if recipe != [] {
      var n := |recipe| - 1;
      FoundSplit(recipe, types, x);
      hide Found;
      KeptExactly(recipe[..n], types[..n], x);
    }
  }

  lemma {:induction false} SubsequenceSelf(s: seq<string>)
    ensures Subsequence(s, s)
  {
    if s != [] {
      SubsequenceSelf(s[..|s| - 1]);
    }
  }

  lemma {:induction false} SubsequenceWider(s: seq<string>, t: seq<string>, u: seq<string>)
    requires Subsequence(s, t) && Subsequence(t, u)
    ensures Subsequence(s, u)
    decreases |u|
  {
    if s != [] {
      var u' := u[..|u| - 1];
      if t[|t| - 1] == u[|u| - 1] && Subsequence(t[..|t| - 1], u') {
        if s[|s| - 1] == t[|t| - 1] && Subsequence(s[..|s| - 1], t[..|t| - 1]) {
          SubsequenceWider(s[..|s| - 1], t[..|t| - 1], u');
        } else {
          SubsequenceWider(s, t[..|t| - 1], u');
        }
      } else {
        SubsequenceWider(s, t, u');
      }
    }
  }

  // ---------------------------------------------------------------------
  // A robot that answers every request
  // ---------------------------------------------------------------------

  function TypesOf(recipe: seq<string>, available: set<string>): (types: seq<Ack>)
    ensures |types| == |recipe|
    ensures forall i :: 0 <= i < |types| ==> (types[i].NotFound? <==> recipe[i] !in available)
    ensures forall i :: 0 <= i < |types| ==> types[i] != InUse
  {
    seq(|recipe|, i requires 0 <= i < |recipe| => if recipe[i] in available then Typed("DOUBLE") else NotFound)
  }

  datatype Offer = Offer(available: set<string>, version: nat, major: nat)

  ghost predicate Cooperative(robot: Robot, offer: Offer) {
    && 1 <= offer.version
    && forall s: Situation :: Cooperates(robot(s), s, offer)
  }

  predicate Cooperates(a: Answer, s: Situation, offer: Offer) {
    && a.connected && a.written && a.reply.Some?
    && match s.request
       case ProtocolRequest(v) => a.reply.value == ProtocolReply(v <= offer.version)
       case VersionRequest => a.reply.value == VersionReply(offer.major)
       case OutputsRequest(_, recipe) => a.reply.value == OutputsReply(TypesOf(recipe, offer.available))
       case InputsRequest(recipe) =>
         a.reply.value.InputsReply? && |a.reply.value.types| == |recipe| && AllUsable(a.reply.value.types)
       case StartRequest => if s.answered == 0 then a.reply.value == StartReply(true) else a.reply.value.Data?
       case PauseRequest => a.reply.value == PauseReply(true)
       case Nothing => true
  }

  /** A target frequency that such a robot can be run at. */
  predicate Attainable(target: real, max: real, offer: Offer) {
    0.0 <= target <= (if offer.major < 5 then CB3_MAX_FREQUENCY else max)
  }

  /** The answers end in an accepted version, every higher one having been declined before. */
  predicate HighestAccepted(answers: seq<(nat, bool)>, version: nat) {
    && 1 <= version <= MAX_PROTOCOL_VERSION
    && |answers| == MAX_PROTOCOL_VERSION - version + 1
    && answers[|answers| - 1] == (version, true)
    && forall i :: 0 <= i < |answers| - 1 ==> answers[i] == (MAX_PROTOCOL_VERSION - i, false)
  }

  /** Enough data to trust the robot: two seconds' worth, or a robot up for forty seconds. */
  predicate Warm(readings: seq<real>, frequency: real, timed: bool) {
    (|readings| as real) >= frequency * 2.0 || (timed && readings != [] && readings[|readings| - 1] >= 40.0)
  }

  // ---------------------------------------------------------------------
  // The client
  // ---------------------------------------------------------------------

  class Client {
    const robot: Robot
    const inputRecipe: seq<string>
    const ignoreUnavailableOutputs: bool
    ghost const offer: Offer   // what the robot has, if it happens to be a cooperative one

    var clientState: ClientState
    var outputRecipe: seq<string>
    var parserRecipe: seq<string>
    var parserVersion: nat
    var maxFrequency: real
    var targetFrequency: real
    var major: nat
    var writerRecipe: Option<nat>

    // the connection
    var time: nat
    var request: Request
    var answered: nat

    // history of the handshake
    ghost var setups: nat
    ghost var negotiated: seq<(nat, bool)>          // answers to version proposals, this setup
    ghost var outputTypes: Option<seq<Ack>>         // answer to the output recipe, this setup
    ghost var inputTypes: Option<seq<Ack>>
    ghost var seen: Seen
    ghost var readings: seq<real>                   // timestamps received while the robot was checked

    ghost predicate Valid()
      reads this
    {
      parserRecipe == outputRecipe && (maxFrequency == CB3_MAX_FREQUENCY || maxFrequency == URE_MAX_FREQUENCY)
    }

    ghost predicate Greeted()
      reads this
    {
      && HighestAccepted(negotiated, parserVersion)
      && 0.0 < targetFrequency <= maxFrequency <= (if major < 5 then CB3_MAX_FREQUENCY else URE_MAX_FREQUENCY)
    }

    /** All that a successful handshake has established. */
    ghost predicate Established()
      reads this
    {
      && clientState == Initialized
      && Greeted()
      && parserRecipe == outputRecipe
      && outputTypes.Some? && |outputTypes.value| == |outputRecipe| && AllFound(outputTypes.value)
      && inputTypes.Some? && |inputTypes.value| == |inputRecipe| && AllUsable(inputTypes.value)
      && writerRecipe.Some? && seen.reply == Some(InputsReply(inputTypes.value, writerRecipe.value))
      && seen.outputs == OutputsRequest(if parserVersion == 2 then Some(targetFrequency) else None, outputRecipe)
      && Warm(readings, targetFrequency, "timestamp" in outputRecipe)
    }

    constructor (robot: Robot, recipe: seq<string>, inputRecipe: seq<string>,
                 target: real, ignore: bool, ghost offer: Offer)
      ensures Valid() && clientState == Uninitialized && setups == 0
      ensures this.robot == robot && this.inputRecipe == inputRecipe
              && ignoreUnavailableOutputs == ignore && this.offer == offer
      ensures "timestamp" in outputRecipe && recipe <= outputRecipe
      ensures forall x :: x in outputRecipe <==> x in recipe || x == "timestamp"
      ensures |outputRecipe| <= |recipe| + 1
      ensures targetFrequency == target && maxFrequency == URE_MAX_FREQUENCY
    {
      this.robot, this.inputRecipe, ignoreUnavailableOutputs, this.offer := robot, inputRecipe, ignore, offer;
      outputRecipe := if "timestamp" in recipe then recipe else recipe + ["timestamp"];
      parserRecipe := if "timestamp" in recipe then recipe else recipe + ["timestamp"];
      parserVersion, maxFrequency, targetFrequency, clientState := 1, URE_MAX_FREQUENCY, target, Uninitialized;
      major, writerRecipe, time, request, answered := 0, None, 0, Nothing, 0;
      setups, negotiated, outputTypes, inputTypes := 0, [], None, None;
      seen, readings := Seen(false, None, Nothing), [];
    }

    /** `pipeline_->init`: connects, throwing when it cannot. */
    method Connect() returns (ok: bool)
      modifies this`time, this`request, this`answered, this`seen
      ensures Cooperative(robot, offer) ==> ok
      ensures seen == old(seen)
    {
      var a := robot(Situation(time, request, answered));
      assert Cooperative(robot, offer) ==> Cooperates(a, Situation(time, request, answered), offer);
      time, request, answered := time + 1, Nothing, 0;
      return a.connected;
    }

    /** `stream_.write`. */
    method Write(r: Request) returns (ok: bool)
      modifies this`time, this`request, this`answered, this`seen
      ensures ok ==> request == r && answered == 0
      ensures seen == old(seen).(written := ok, outputs := if ok && r.OutputsRequest? then r else old(seen).outputs)
      ensures Cooperative(robot, offer) ==> ok
    {
      var a := robot(Situation(time, request, answered));
      time := time + 1;
      ok := a.written;
      if ok {
        request, answered := r, 0;
      }
      seen := seen.(written := ok, outputs := if ok && r.OutputsRequest? then r else seen.outputs);
      assert Cooperative(robot, offer) ==> Cooperates(a, Situation(old(time), old(request), old(answered)), offer);
    }

    /** `getLatestProduct`: a package or a timeout, after some time. */
    method Receive() returns (reply: Option<Reply>, ms: nat)
      modifies this`time, this`answered, this`seen
      ensures answered == old(answered) + 1 && seen == old(seen).(reply := reply)
      ensures Cooperative(robot, offer) ==>
                Cooperates(Answer(true, true, reply, ms), Situation(old(time), request, old(answered)), offer)
    {
      var a := robot(Situation(time, request, answered));
      assert Cooperative(robot, offer) ==> Cooperates(a, Situation(time, request, answered), offer);
      time, answered := time + 1, answered + 1;
      reply, ms := a.reply, a.ms;
      seen := seen.(reply := reply);
    }

    /** `sendPause`: five seconds for the answer, which pauses the client even when it refuses. */
    method SendPause() returns (r: Outcome<bool>)
      modifies this`time, this`request, this`answered, this`seen, this`clientState
      ensures clientState == old(clientState) || clientState == Paused
      ensures r == Done(true) ==> clientState == Paused && seen.written && seen.reply == Some(PauseReply(true))
      ensures r == Done(false) ==> !seen.written || seen.reply.None? || seen.reply == Some(PauseReply(false))
      ensures r.Threw? ==> clientState == old(clientState) && seen.reply.Some? && !seen.reply.value.PauseReply?
      ensures seen.outputs == old(seen).outputs
      ensures !r.Aborted?
      ensures Cooperative(robot, offer) ==> r == Done(true)
    {
      var ok := Write(PauseRequest);
      if !ok {
        return Done(false);
      }
      var elapsed: int := 0;
      while elapsed < 5000
        invariant clientState == old(clientState) && request == PauseRequest
        invariant seen.written && seen.outputs == old(seen).outputs
        invariant 0 <= elapsed && (elapsed > 0 ==> seen.reply.Some? && !seen.reply.value.PauseReply?)
        invariant elapsed > 0 ==> !Cooperative(robot, offer)
        decreases 5000 - elapsed
      {
        var reply, ms := Receive();
        if reply.None? {
          return Done(false);
        }
        if reply.value.PauseReply? {
          clientState := Paused;
          return Done(reply.value.accepted);
        }
        elapsed := elapsed + 1 + ms;
      }
      return Threw;
    }

    /** `pause`. */
    method Pause() returns (r: Outcome<bool>)
      modifies this`time, this`request, this`answered, this`seen, this`clientState
      ensures r == Done(true) ==> clientState == Paused
      ensures old(clientState) != Running ==>
                clientState == old(clientState) && r == Done(old(clientState) == Paused) && seen == old(seen)
      ensures clientState == old(clientState) || clientState == Paused
      ensures !r.Aborted?
    {
      if clientState == Paused {
        return Done(true);
      }
      if clientState != Running {
        return Done(false);
      }
      r := SendPause();
    }

    /** `disconnect`. */
    method Disconnect() returns (r: Outcome<()>)
      modifies this`time, this`request, this`answered, this`seen, this`clientState
      ensures old(clientState) != Running ==> r.Done? && time == old(time) && seen == old(seen)
      ensures r.Done? ==> clientState == Uninitialized
      ensures !r.Aborted?
    {
      if clientState == Running {
        var paused := Pause();
        if paused.Threw? {
          return Threw;
        }
      }
      clientState := Uninitialized;
      return Done(());
    }

    /** `negotiateProtocolVersion`. */
    method NegotiateProtocolVersion(version: nat) returns (r: Outcome<bool>)
      requires clientState == Initializing
      modifies this`time, this`request, this`answered, this`seen, this`clientState, this`parserVersion, this`negotiated
      ensures parserVersion == 1 && !r.Aborted?
      ensures r.Threw? ==> clientState == Initializing
      ensures clientState == Initializing ==> request == ProtocolRequest(version) && seen.written && seen.reply.Some?
      ensures clientState == Initializing && r.Done? ==> seen.reply == Some(ProtocolReply(r.value))
      ensures clientState == Uninitialized ==> !seen.written || seen.reply.None?
      ensures r.Threw? ==> answered == MAX_REQUEST_RETRIES && !seen.reply.value.ProtocolReply?
      ensures r == Done(true) ==> clientState == Initializing && negotiated == old(negotiated) + [(version, true)]
      ensures r == Done(false) ==>
                clientState == Uninitialized
                || (clientState == Initializing && negotiated == old(negotiated) + [(version, false)])
      ensures Cooperative(robot, offer) ==> clientState == Initializing && r == Done(version <= offer.version)
    {
      parserVersion := 1;
      var ok := Write(ProtocolRequest(version));
      if !ok {
        var _ := Disconnect();
        return Done(false);
      }
      var retries := 0;
      while retries < MAX_REQUEST_RETRIES
        invariant clientState == Initializing && parserVersion == 1
        invariant negotiated == old(negotiated) && request == ProtocolRequest(version)
        invariant 0 <= retries <= MAX_REQUEST_RETRIES && answered == retries && seen.written
        invariant retries > 0 ==> seen.reply.Some? && !seen.reply.value.ProtocolReply?
        invariant retries > 0 ==> !Cooperative(robot, offer)
      {
        var reply, _ := Receive();
        if reply.None? {
          var _ := Disconnect();
          return Done(false);
        }
        if reply.value.ProtocolReply? {
          negotiated := negotiated + [(version, reply.value.accepted)];
          return Done(reply.value.accepted);
        }
        retries := retries + 1;
      }
      return Threw;
    }

    /** `queryURControlVersion`. */
    method QueryUrControlVersion() returns (r: Outcome<()>)
      requires clientState == Initializing
      modifies this`time, this`request, this`answered, this`seen, this`clientState, this`major
      ensures !r.Aborted?
      ensures clientState == Initializing || (clientState == Uninitialized && r.Done?)
      ensures r.Done? && clientState == Initializing ==>
                request == VersionRequest && seen.reply == Some(VersionReply(major))
      ensures clientState == Uninitialized ==> !seen.written || seen.reply.None?
      ensures r.Threw? ==> answered == MAX_REQUEST_RETRIES && seen.reply.Some? && !seen.reply.value.VersionReply?
      ensures Cooperative(robot, offer) ==> clientState == Initializing && r.Done? && major == offer.major
    {
      var ok := Write(VersionRequest);
      if !ok {
        r := Disconnect();
        return;
      }
      var retries := 0;
      while retries < MAX_REQUEST_RETRIES
        invariant clientState == Initializing && request == VersionRequest
        invariant 0 <= retries <= MAX_REQUEST_RETRIES && answered == retries && seen.written
        invariant retries > 0 ==> seen.reply.Some? && !seen.reply.value.VersionReply?
        invariant retries > 0 ==> !Cooperative(robot, offer)
      {
        var reply, _ := Receive();
        if reply.None? {
          r := Disconnect();
          return;
        }
        if reply.value.VersionReply? {
          major := reply.value.major;
          return Done(());
        }
        retries := retries + 1;
      }
      return Threw;
    }

    /** `resetOutputRecipe`. */
    method ResetOutputRecipe(recipe: seq<string>) returns (r: Outcome<()>)
      requires clientState != Running
      modifies this`time, this`request, this`answered, this`seen, this`clientState, this`outputRecipe,
               this`parserRecipe, this`parserVersion
      ensures r.Done? && clientState == Uninitialized
      ensures outputRecipe == parserRecipe == recipe && parserVersion == 1 && seen == old(seen)
    {
      r := Disconnect();
      outputRecipe, parserRecipe, parserVersion := recipe, recipe, 1;
    }

    /** The loop that sorts an answer's variables into available and unavailable ones. */
    method SortVariables(types: seq<Ack>) returns (available: seq<string>, unavailable: seq<string>)
      requires |types| == |outputRecipe|
      ensures available == Kept(outputRecipe, types)
      ensures unavailable == [] <==> AllFound(types)
      ensures |available| + |unavailable| == |outputRecipe|
    {
      available, unavailable := [], [];
      for i := 0 to |types|
        invariant available == Kept(outputRecipe[..i], types[..i])
        invariant unavailable == [] <==> AllFound(types[..i])
        invariant |available| + |unavailable| == i
      {
        assert outputRecipe[..i + 1][..i] == outputRecipe[..i] && types[..i + 1][..i] == types[..i];
        assert types[..i + 1][i] == types[i];
        assert forall k :: 0 <= k < i ==> types[..i][k] == types[..i + 1][k];
        if types[i].NotFound? {
          unavailable := unavailable + [outputRecipe[i]];
        } else {
          available := available + [outputRecipe[i]];
        }
      }
      assert outputRecipe[..|types|] == outputRecipe && types[..|types|] == types;
    }

    /** `setupOutputs`: acknowledged, disconnected, or narrowed and disconnected. */
    method SetupOutputs(version: nat) returns (r: Outcome<()>)
      requires Valid() && clientState == Initializing
      modifies this`time, this`request, this`answered, this`seen, this`clientState, this`outputRecipe,
               this`parserRecipe, this`parserVersion, this`outputTypes
      ensures Valid()
      ensures r.Threw? ==> clientState == Initializing && outputRecipe == old(outputRecipe)
      ensures r.Done? ==> clientState == Initializing || clientState == Uninitialized
      ensures r.Done? && clientState == Initializing ==>
                && parserVersion == old(parserVersion) && outputRecipe == old(outputRecipe)
                && outputTypes.Some? && |outputTypes.value| == |outputRecipe| && AllFound(outputTypes.value)
                && seen.outputs == OutputsRequest(if version == 2 then Some(targetFrequency) else None, outputRecipe)
                && seen.reply == Some(OutputsReply(outputTypes.value))
      ensures outputRecipe != old(outputRecipe) ==>
                && ignoreUnavailableOutputs && r.Done? && clientState == Uninitialized
                && outputTypes.Some? && |outputTypes.value| == |old(outputRecipe)| && !AllFound(outputTypes.value)
                && outputRecipe == Kept(old(outputRecipe), outputTypes.value)
                && seen.reply == Some(OutputsReply(outputTypes.value))
      ensures clientState == Uninitialized && outputRecipe == old(outputRecipe) ==> !seen.written || seen.reply.None?
      ensures r.Threw? ==>
                && seen.reply.Some?
                && (seen.reply.value.OutputsReply? ==>
                      !ignoreUnavailableOutputs && !AllFound(seen.reply.value.types))
      ensures Cooperative(robot, offer) ==>
                var types := TypesOf(old(outputRecipe), offer.available);
                if AllFound(types) then r.Done? && clientState == Initializing
                else if ignoreUnavailableOutputs then
                  r.Done? && clientState == Uninitialized && outputRecipe == Kept(old(outputRecipe), types)
                else r.Threw?
    {
      var retries := 0;
      while retries < MAX_REQUEST_RETRIES
        invariant Valid() && clientState == Initializing
        invariant outputRecipe == old(outputRecipe) && parserVersion == old(parserVersion)
        invariant retries > 0 ==> seen.reply.Some? && !seen.reply.value.OutputsReply?
        invariant retries > 0 ==> !Cooperative(robot, offer)
      {
        var ok := Write(OutputsRequest(if version == 2 then Some(targetFrequency) else None, outputRecipe));
        if !ok {
          r := Disconnect();
          return;
        }
        var reply, _ := Receive();
        if reply.None? {
          r := Disconnect();
          return;
        }
        if reply.value.OutputsReply? {
          var types := reply.value.types;
          if |outputRecipe| != |types| {
            return Aborted;
          }
          outputTypes := Some(types);
          var available, unavailable := SortVariables(types);
          if unavailable != [] {
            if ignoreUnavailableOutputs {
              KeptNarrows(outputRecipe, types);
              r := ResetOutputRecipe(available);
              return;
            }
            return Threw;
          }
          return Done(());
        }
        retries := retries + 1;
      }
      return Threw;
    }

    /** `sendStart`: only the first package counts. */
    method SendStart() returns (ok: bool)
      modifies this`time, this`request, this`answered, this`seen
      ensures ok ==> request == StartRequest && answered > 0
      ensures ok <==> seen.written && seen.reply == Some(StartReply(true))
      ensures seen.outputs == old(seen).outputs
      ensures Cooperative(robot, offer) ==> ok
    {
      var written := Write(StartRequest);
      if !written {
        return false;
      }
      var reply, _ := Receive();
      return reply.Some? && reply.value.StartReply? && reply.value.accepted;
    }

    /** `isRobotBooted`: reads data until the robot has been up 40 seconds or two seconds' worth arrived. */
    method IsRobotBooted() returns (r: Outcome<bool>)
      requires clientState == Initializing
      modifies this`time, this`request, this`answered, this`seen, this`clientState, this`readings
      ensures clientState == Initializing || clientState == Paused
      ensures r == Done(true) ==>
                && clientState == Paused && seen.reply == Some(PauseReply(true))
                && Warm(readings, targetFrequency, "timestamp" in parserRecipe)
      ensures seen.outputs == old(seen).outputs
      ensures Cooperative(robot, offer) ==> r == Done(true)
    {
      var started := SendStart();
      if !started {
        return Done(false);
      }
      var timestamp := 0.0;
      var count := 0;
      readings := [];
      while timestamp < 40.0 && (count as real) < targetFrequency * 2.0
        invariant clientState == Initializing && seen.outputs == old(seen).outputs
        invariant request == StartRequest && answered > 0
        invariant count == |readings|
        invariant timestamp >= 40.0 ==>
                    "timestamp" in parserRecipe && readings != [] && readings[|readings| - 1] == timestamp
        decreases (targetFrequency * 2.0).Floor + 1 - count
      {
        var reply, _ := Receive();
        if reply.None? {
          return Done(false);
        }
        if !reply.value.Data? {
          return Aborted;
        }
        if "timestamp" in parserRecipe {
          timestamp := reply.value.timestamp;
        }
        readings := readings + [reply.value.timestamp];
        count := count + 1;
      }
      r := SendPause();
    }

    /** `setupInputs`. */
    method SetupInputs() returns (r: Outcome<()>)
      requires clientState == Paused
      modifies this`time, this`request, this`answered, this`seen, this`clientState, this`inputTypes, this`writerRecipe
      ensures clientState == Paused || (clientState == Uninitialized && r.Done?)
      ensures r.Done? && clientState == Paused ==>
                && inputTypes.Some? && |inputTypes.value| == |inputRecipe| && AllUsable(inputTypes.value)
                && writerRecipe.Some? && seen.reply == Some(InputsReply(inputTypes.value, writerRecipe.value))
                && request == InputsRequest(inputRecipe)
      ensures seen.outputs == old(seen).outputs
      ensures clientState == Uninitialized ==> !seen.written || seen.reply.None?
      ensures r.Threw? ==>
                seen.reply.Some? && (seen.reply.value.InputsReply? ==> !AllUsable(seen.reply.value.types))
      ensures Cooperative(robot, offer) ==> r.Done? && clientState == Paused
    {
      var ok := Write(InputsRequest(inputRecipe));
      if !ok {
        r := Disconnect();
        return;
      }
      var retries := 0;
      while retries < MAX_REQUEST_RETRIES
        invariant clientState == Paused && request == InputsRequest(inputRecipe)
        invariant seen.written && seen.outputs == old(seen).outputs
        invariant retries > 0 ==> seen.reply.Some? && !seen.reply.value.InputsReply?
        invariant retries > 0 ==> !Cooperative(robot, offer)
      {
        var reply, _ := Receive();
        if reply.None? {
          r := Disconnect();
          return;
        }
        if reply.value.InputsReply? {
          var types := reply.value.types;
          if |inputRecipe| != |types| {
            return Aborted;
          }
          inputTypes := Some(types);
          for i := 0 to |types|
            invariant AllUsable(types[..i])
          {
            if types[i].NotFound? || types[i].InUse? {
              return Threw;
            }
          }
          assert types[..|types|] == types;
          writerRecipe := Some(reply.value.recipeId);
          return Done(());
        }
        retries := retries + 1;
      }
      return Threw;
    }

    /** The version loop of `setupCommunication`. */
    method Negotiate() returns (r: Outcome<nat>)
      requires clientState == Initializing && negotiated == []
      modifies this`time, this`request, this`answered, this`seen, this`clientState, this`parserVersion, this`negotiated
      ensures !r.Aborted?
      ensures r.Threw? ==> clientState == Initializing
      ensures r.Done? ==>
                clientState == Uninitialized || (clientState == Initializing && HighestAccepted(negotiated, r.value))
      ensures Cooperative(robot, offer) ==>
                r.Done? && clientState == Initializing && (r.value == if offer.version >= 2 then 2 else 1)
    {
      var version := MAX_PROTOCOL_VERSION;
      while true
        invariant 1 <= version <= MAX_PROTOCOL_VERSION
        invariant clientState == Initializing
        invariant |negotiated| == MAX_PROTOCOL_VERSION - version
        invariant forall i :: 0 <= i < |negotiated| ==> negotiated[i] == (MAX_PROTOCOL_VERSION - i, false)
        invariant version < MAX_PROTOCOL_VERSION ==> Cooperative(robot, offer) ==> offer.version < 2
        decreases version
      {
        var accepted := NegotiateProtocolVersion(version);
        if accepted.Threw? {
          return Threw;
        }
        if accepted.value || clientState != Initializing {
          return Done(version);
        }
        version := version - 1;
        if version == 0 {
          return Threw;
        }
      }
    }

    /** The first half of `setupCommunication`: connection, versions and frequency. */
    method Greet() returns (r: Outcome<()>)
      requires Valid()
      modifies this`time, this`request, this`answered, this`seen, this`clientState, this`parserVersion, this`negotiated,
               this`major, this`maxFrequency, this`targetFrequency, this`setups, this`outputTypes, this`inputTypes
      ensures Valid() && !r.Aborted? && setups == old(setups) + 1
      ensures r.Threw? ==> clientState == Initializing
      ensures r.Done? ==> clientState == Uninitialized || (clientState == Initializing && Greeted())
      ensures Cooperative(robot, offer) && Attainable(old(targetFrequency), old(maxFrequency), offer) ==>
                r.Done? && clientState == Initializing && Attainable(targetFrequency, maxFrequency, offer)
    {
      hide HighestAccepted, Cooperates, Cooperative;
      setups, outputTypes, inputTypes := setups + 1, None, None;
      r := Meet();
      if r.Threw? || clientState == Uninitialized {
        return;
      }
      r := QueryUrControlVersion();
      if r.Threw? || clientState == Uninitialized {
        return;
      }
      r := SettleFrequency();
    }

    /** Connecting and agreeing on a protocol version. */
    method Meet() returns (r: Outcome<()>)
      modifies this`time, this`request, this`answered, this`seen, this`clientState, this`parserVersion, this`negotiated
      ensures !r.Aborted?
      ensures r.Threw? ==> clientState == Initializing
      ensures r.Done? ==>
                clientState == Uninitialized
                || (clientState == Initializing && HighestAccepted(negotiated, parserVersion))
      ensures Cooperative(robot, offer) ==> r.Done? && clientState == Initializing
    {
      hide HighestAccepted, Cooperates, Cooperative;
      clientState, negotiated := Initializing, [];
      var connected := Connect();
      if !connected {
        return Threw;
      }
      var version := Negotiate();
      if version.Threw? {
        return Threw;
      }
      if clientState == Uninitialized {
        return Done(());
      }
      parserVersion := version.value;
      return Done(());
    }

    /** The frequencies in `setupCommunication`: zero asks for the robot's maximum. */
    method SettleFrequency() returns (r: Outcome<()>)
      requires Valid()
      modifies this`maxFrequency, this`targetFrequency
      ensures Valid() && !r.Aborted?
      ensures maxFrequency == if major < 5 then CB3_MAX_FREQUENCY else old(maxFrequency)
      ensures r.Done? <==> 0.0 <= old(targetFrequency) <= maxFrequency
      ensures r.Done? ==> 0.0 < targetFrequency && targetFrequency in {maxFrequency, old(targetFrequency)}
      ensures old(targetFrequency) != 0.0 ==> targetFrequency == old(targetFrequency)
    {
      if major < 5 {
        maxFrequency := CB3_MAX_FREQUENCY;
      }
      if targetFrequency == 0.0 {
        targetFrequency := maxFrequency;
      } else if targetFrequency <= 0.0 || targetFrequency > maxFrequency {
        return Threw;
      }
      return Done(());
    }

    /** `setupCommunication`. */
    method SetupCommunication() returns (r: Outcome<()>)
      requires Valid()
      modifies this
      ensures Valid() && setups == old(setups) + 1
      ensures r.Threw? ==> clientState == Initializing || clientState == Paused
      ensures r.Done? ==> clientState == Uninitialized || Established()
      ensures outputRecipe != old(outputRecipe) ==>
                && ignoreUnavailableOutputs && r.Done? && clientState == Uninitialized
                && outputTypes.Some? && |outputTypes.value| == |old(outputRecipe)| && !AllFound(outputTypes.value)
                && outputRecipe == Kept(old(outputRecipe), outputTypes.value)
      ensures Cooperative(robot, offer) && Attainable(old(targetFrequency), old(maxFrequency), offer) ==>
                && Attainable(targetFrequency, maxFrequency, offer)
                && var types := TypesOf(old(outputRecipe), offer.available);
                   if AllFound(types) then r.Done? && clientState == Initialized
                   else if ignoreUnavailableOutputs then
                     r.Done? && clientState == Uninitialized && outputRecipe == Kept(old(outputRecipe), types)
                   else r.Threw?
    {
      hide HighestAccepted, Cooperates, Cooperative, Warm;
      r := Greet();
      if r.Threw? || clientState == Uninitialized {
        return;
      }
      r := SetupOutputs(parserVersion);
      if !r.Done? || clientState == Uninitialized {
        return;
      }
      r := FinishSetup();
    }

    /** The last part of `setupCommunication`: the robot's readiness and the inputs. */
    method FinishSetup() returns (r: Outcome<()>)
      requires clientState == Initializing
      modifies this`time, this`request, this`answered, this`seen, this`clientState, this`readings,
               this`inputTypes, this`writerRecipe
      ensures r.Threw? ==> clientState == Initializing || clientState == Paused
      ensures r.Done? ==> clientState == Uninitialized || clientState == Initialized
      ensures r.Done? && clientState == Initialized ==>
                && inputTypes.Some? && |inputTypes.value| == |inputRecipe| && AllUsable(inputTypes.value)
                && writerRecipe.Some? && seen.reply == Some(InputsReply(inputTypes.value, writerRecipe.value))
                && Warm(readings, targetFrequency, "timestamp" in parserRecipe)
      ensures seen.outputs == old(seen).outputs
      ensures Cooperative(robot, offer) ==> r.Done? && clientState == Initialized
    {
      hide Cooperates, Cooperative, Warm, AllUsable;
      var booted := IsRobotBooted();
      if booted.Threw? {
        return Threw;
      }
      if booted.Aborted? {
        return Aborted;
      }
      if !booted.value {
        r := Disconnect();
        return;
      }
      r := SetupInputs();
      if !r.Done? || clientState == Uninitialized {
        return;
      }
      clientState := Initialized;
    }

    /** The robot lacks an output and the client may not drop it. */
    ghost predicate Refuses(recipe: seq<string>)
      reads this
    {
      Cooperative(robot, offer) && !ignoreUnavailableOutputs && !AllFound(TypesOf(recipe, offer.available))
    }

    /** `init`. */
    method Init(attempts: nat) returns (r: Outcome<bool>)
      requires Valid()
      modifies this
      ensures Valid()
      ensures attempts == 0 ==> r.Threw?
      ensures attempts == 0 || old(clientState) != Uninitialized ==>
                clientState == old(clientState) && setups == old(setups)
      ensures attempts > 0 && old(clientState) != Uninitialized ==> r == Done(true)
      ensures r.Done? ==> r.value && (old(clientState) == Uninitialized ==> Established())
      ensures r.Threw? && old(clientState) == Uninitialized ==>
                setups == old(setups) + attempts && clientState != Initialized
      ensures setups <= old(setups) + attempts
      ensures Subsequence(outputRecipe, old(outputRecipe))
      ensures !ignoreUnavailableOutputs ==> outputRecipe == old(outputRecipe)
      ensures (Cooperative(robot, offer) && Attainable(old(targetFrequency), old(maxFrequency), offer)
               && ignoreUnavailableOutputs && attempts >= 2) ==>
                r == Done(true) && setups <= old(setups) + 2
      ensures (Refuses(old(outputRecipe)) && Attainable(old(targetFrequency), old(maxFrequency), offer)
               && attempts > 0 && old(clientState) == Uninitialized) ==>
                r.Threw? && (clientState == Initializing || clientState == Paused)
    {
      SubsequenceSelf(outputRecipe);
      if attempts <= 0 {
        return Threw;
      }
      if clientState != Uninitialized {
        return Done(true);
      }
      var made := 0;
      while made < attempts
        invariant Valid() && made <= attempts && setups == old(setups) + made
        invariant clientState != Initialized && (made == 0 ==> clientState == Uninitialized)
        invariant Subsequence(outputRecipe, old(outputRecipe))
        invariant !ignoreUnavailableOutputs ==> outputRecipe == old(outputRecipe)
        invariant ignoreUnavailableOutputs && Cooperative(robot, offer)
                  && Attainable(old(targetFrequency), old(maxFrequency), offer) ==>
                    && Attainable(targetFrequency, maxFrequency, offer)
                    && (made > 0 ==> made == 1 && AllFound(TypesOf(outputRecipe, offer.available)))
        invariant Refuses(old(outputRecipe)) && Attainable(old(targetFrequency), old(maxFrequency), offer) ==>
                    && Attainable(targetFrequency, maxFrequency, offer)
                    && (made > 0 ==> clientState == Initializing || clientState == Paused)
      {
        ghost var before := outputRecipe;
        var setup := SetupCommunication();
        if setup.Aborted? {
          return Aborted;
        }
        if outputRecipe != before {
          KeptNarrows(before, outputTypes.value);
          SubsequenceWider(outputRecipe, before, old(outputRecipe));
        }
        if clientState == Initialized {
          return Done(true);
        }
        KeptIsAvailable(before, offer.available);
        made := made + 1;
      }
      return Threw;
    }
  }

  /** Calling `init` again after it threw: it reports success without a handshake exactly when
      the exception left the state past UNINITIALIZED, and an output recipe the robot does not
      know is one way to get there. */
  method InitAgain(client: Client, attempts: nat)
    returns (first: Outcome<bool>, second: Outcome<bool>, ghost left: ClientState)
    requires client.Valid() && client.clientState == Uninitialized && attempts > 0
    modifies client
    ensures first.Threw? && left != Uninitialized ==>
              second == Done(true) && client.clientState == left != Initialized
    ensures first.Threw? && left == Uninitialized && second.Done? ==> client.Established()
    ensures old(client.Refuses(client.outputRecipe))
            && old(Attainable(client.targetFrequency, client.maxFrequency, client.offer)) ==>
              first.Threw? && left != Uninitialized
  {
    first := client.Init(attempts);
    left := client.clientState;
    second := first;
    if first.Threw? {
      second := client.Init(attempts);
    }
  }

  /** Narrowing to what the robot has leaves nothing for it to refuse. */
  lemma KeptIsAvailable(recipe: seq<string>, available: set<string>)
    ensures AllFound(TypesOf(Kept(recipe, TypesOf(recipe, available)), available))
  {
    var kept := Kept(recipe, TypesOf(recipe, available));
    forall i | 0 <= i < |kept| ensures kept[i] in available {
      KeptExactly(recipe, TypesOf(recipe, available), kept[i]);
    }
  }

  /** A robot that answers everything and has no outputs at all. */
  function BareRobot(s: Situation): Answer {
    var reply := match s.request
      case ProtocolRequest(v) => ProtocolReply(v <= 2)
      case VersionRequest => VersionReply(5)
      case OutputsRequest(_, recipe) => OutputsReply(TypesOf(recipe, {}))
      case InputsRequest(recipe) => InputsReply(seq(|recipe|, _ => Typed("DOUBLE")), 1)
      case StartRequest => if s.answered == 0 then StartReply(true) else Data(100.0)
      case PauseRequest => PauseReply(true)
      case Nothing => OtherReply;
    Answer(true, true, Some(reply), 1)
  }

  lemma BareRobotCooperates()
    ensures Cooperative(BareRobot, Offer({}, 2, 5))
  {
    forall s: Situation ensures Cooperates(BareRobot(s), s, Offer({}, 2, 5)) {
    }
  }

  /** With that robot and an output that may not be dropped, `init` throws and the next `init`
      reports success, the client still being in the middle of its setup. */
  method InitSucceedsAfterFailing() returns (first: Outcome<bool>, second: Outcome<bool>, client: Client)
    ensures first.Threw? && second == Done(true)
    ensures client.clientState != Initialized && client.clientState != Uninitialized
  {
    client := new Client(BareRobot, ["timestamp"], [], 0.0, false, Offer({}, 2, 5));
    BareRobotCooperates();
    assert TypesOf(client.outputRecipe, {})[0].NotFound?;
    ghost var left;
    first, second, left := InitAgain(client, 1);
  }
}
