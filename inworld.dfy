/**
 * The Inworld chat bridge: command-line validation, the session key, the
 * session store, and the message handler that pairs each text packet with
 * its audio packet before printing the pairs as one JSON array.
 */
module Inworld {
  import opened Wrappers
  import Seqs

  /** The seven positional arguments after `node iw.js`. */
  datatype Args = Args(key: string, secret: string, scene: string, text: string,
                       userName: string, userChannel: string, userId: string)

  /** What the script does before any chat: exit with a status, or start. */
  datatype Startup = Exit(status: int) | Start(args: Args)

  /** `process.argv.slice(2)`: the arguments after the interpreter and the script. */
  function UserArgs(argv: seq<string>): seq<string> {
    if |argv| <= 2 then [] else argv[2..]
  }

  /** Fewer than seven arguments: usage on stderr and exit status 1. */
  function CheckArgs(argv: seq<string>): (r: Startup)
    ensures r.Exit? <==> |argv| < 9
    ensures r.Exit? ==> r.status == 1
    ensures r.Start? ==> var a := argv[2..];
              r.args == Args(a[0], a[1], a[2], a[3], a[4], a[5], a[6])
  {
    var a := UserArgs(argv);
    if |a| < 7 then Exit(1)
    else Start(Args(a[0], a[1], a[2], a[3], a[4], a[5], a[6]))
  }

  /** `${USER_CHANNEL}_${USER_ID}`. */
  function SessionKey(a: Args): (k: string)
    ensures |k| == |a.userChannel| + 1 + |a.userId|
    ensures k[..|a.userChannel|] == a.userChannel && k[|a.userChannel|] == '_'
    ensures k[|a.userChannel| + 1..] == a.userId
  {
    a.userChannel + "_" + a.userId
  }

  /** While channels contain no `_`, different (channel, user) pairs get different keys. */
  lemma SessionKeyInjective(a: Args, b: Args)
    requires Seqs.Lacks(a.userChannel, '_') && Seqs.Lacks(b.userChannel, '_')
    requires SessionKey(a) == SessionKey(b)
    ensures a.userChannel == b.userChannel && a.userId == b.userId
  {
    Seqs.CutAt(a.userChannel, '_', a.userId);
    Seqs.CutAt(b.userChannel, '_', b.userId);
  }

  /** The `data` table: a key maps to at most one stored session. */
  class Storage<V> {
    var data: map<string, V>

    /**
     * Opens the table; it persists between runs, so it holds whatever
     * earlier runs stored (`existing`), and is empty only on the first one.
     */
    constructor(existing: map<string, V>)
      ensures data == existing
    {
      data := existing;
    }

    /** The stored value, or `null` (None) when the key is absent. */
    method Get(key: string) returns (r: Option<V>)
      ensures key in data ==> r == Some(data[key])
      ensures key !in data ==> r == None
    {
      if key in data {
        r := Some(data[key]);
      } else {
        r := None;
      }
    }

    /** `INSERT OR REPLACE`: the key now maps to `value`, and no other key changes. */
    method Set(key: string, value: V)
      modifies this
      ensures data == old(data)[key := value]
    {
      data := data[key := value];
    }

    /** Removes the key, and no other. */
    method Delete(key: string)
      modifies this
      ensures data == old(data) - {key}
    {
      data := data - {key};
    }
  }

  /** A completed `{text, audio}` object. */
  datatype Pair = Pair(text: string, audio: string)

  const Empty: Pair := Pair("", "")

  /** The packets the handler distinguishes; any other kind is ignored. */
  datatype Packet = InteractionEnd | Text(text: string) | Audio(chunk: string) | Other

  /**
   * The handler's state: the completed pairs (`outputArray`), the pair
   * being filled (`tempObject`), and the JSON arrays printed so far.
   */
  datatype State = State(output: seq<Pair>, pending: Pair, printed: seq<seq<Pair>>)

  const Init: State := State([], Empty, [])

  /** One packet: the reference behaviour of the message handler. */
  function Step(s: State, p: Packet): (r: State)
    ensures s.output <= r.output && |r.output| <= |s.output| + 1
    ensures s.printed <= r.printed && |r.printed| <= |s.printed| + 1
  {
    match p
    case InteractionEnd => s.(printed := s.printed + [s.output])
    case Text(t) =>
      var pending := s.pending.(text := t);
      if s.pending.audio != "" then s.(output := s.output + [pending], pending := Empty)
      else s.(pending := pending)
    case Audio(c) =>
      var pending := s.pending.(audio := c);
      if s.pending.text != "" then s.(output := s.output + [pending], pending := Empty)
      else s.(pending := pending)
    case Other => s
  }

  function Run(s: State, ps: seq<Packet>): State
    decreases |ps|
  {
    if ps == [] then s else Run(Step(s, ps[0]), ps[1..])
  }

  /** The module-level `outputArray` and `tempObject` with their handler. */
  class Pairing {
    var output: seq<Pair>
    var pending: Pair
    var printed: seq<seq<Pair>>

    function Current(): State
      reads this
    {
      State(output, pending, printed)
    }

    constructor()
      ensures Current() == Init
    {
      output := [];
      pending := Empty;
      printed := [];
    }

    method OnMessage(p: Packet)
      modifies this
      ensures Current() == Step(old(Current()), p)
    {
      match p {
        case InteractionEnd =>
          printed := printed + [output];
        case Text(t) =>
          pending := pending.(text := t);
          if pending.audio != "" {
            output := output + [pending];
            pending := Empty;
          }
        case Audio(c) =>
          pending := pending.(audio := c);
          if pending.text != "" {
            output := output + [pending];
            pending := Empty;
          }
        case Other =>
      }
    }
  }

  /** The handler's invariant: the pending pair is never complete, and no completed pair is empty. */
  predicate Valid(s: State) {
    && (s.pending.text == "" || s.pending.audio == "")
    && forall k :: 0 <= k < |s.output| ==> s.output[k] != Empty
  }

  lemma StepValid(s: State, p: Packet)
    requires Valid(s)
    ensures Valid(Step(s, p))
  {
  }

  lemma {:induction false} RunValid(s: State, ps: seq<Packet>)
    requires Valid(s)
    ensures Valid(Run(s, ps))
    decreases |ps|
  {
    if ps != [] {
      StepValid(s, ps[0]);
      RunValid(Step(s, ps[0]), ps[1..]);
    }
  }

  /** The output only grows, by appending at the end; printed arrays are never retracted. */
  lemma {:induction false} RunExtends(s: State, ps: seq<Packet>)
    ensures s.output <= Run(s, ps).output
    ensures s.printed <= Run(s, ps).printed
    decreases |ps|
  {
    if ps != [] {
      RunExtends(Step(s, ps[0]), ps[1..]);
    }
  }

  /**
   * A pair is completed by the packet that supplies its second half; the
   * completed pair holds the latest text and audio, and the pending pair
   * starts over empty.
   */
  lemma Flush(s: State, p: Packet)
    ensures |Step(s, p).output| == |s.output| + 1 <==>
            (p.Text? && s.pending.audio != "") || (p.Audio? && s.pending.text != "")
    ensures |Step(s, p).output| == |s.output| + 1 ==>
            Step(s, p).pending == Empty
            && Step(s, p).output[|s.output|] ==
               (if p.Text? then Pair(p.text, s.pending.audio) else Pair(s.pending.text, p.chunk))
  {
  }

  /** A second text before any audio replaces the first; likewise for audio. */
  lemma LastWins(s: State, a: string, b: string)
    ensures s.pending.audio == "" ==>
      Run(s, [Text(a), Text(b)]) == s.(pending := Pair(b, ""))
    ensures s.pending.text == "" ==>
      Run(s, [Audio(a), Audio(b)]) == s.(pending := Pair("", b))
  {
    RunTwo(s, Text(a), Text(b));
    RunTwo(s, Audio(a), Audio(b));
  }

  /** Interaction end prints exactly the completed pairs; the pending half-pair is not printed. */
  lemma EndPrints(s: State)
    ensures Step(s, InteractionEnd).printed == s.printed + [s.output]
    ensures Step(s, InteractionEnd).output == s.output
  {
  }

  /** A text then its audio, or an audio then its text, yields one pair. */
  lemma Exchange(t: string, a: string)
    requires t != "" && a != ""
    ensures Run(Init, [Text(t), Audio(a), InteractionEnd]).printed == [[Pair(t, a)]]
    ensures Run(Init, [Audio(a), Text(t), InteractionEnd]).printed == [[Pair(t, a)]]
  {
    RunThree(Init, Text(t), Audio(a), InteractionEnd);
    var s1 := Step(Init, Text(t));
    assert s1 == State([], Pair(t, ""), []);
    var s2 := Step(s1, Audio(a));
    assert s2.output == [Pair(t, a)];
    assert Step(s2, InteractionEnd).printed == [[Pair(t, a)]];
    RunThree(Init, Audio(a), Text(t), InteractionEnd);
  }

  lemma RunTwo(s: State, p: Packet, q: Packet)
    ensures Run(s, [p, q]) == Step(Step(s, p), q)
  {
    var s1 := Step(s, p);
    assert [p, q][1..] == [q] && [q][1..] == [];
    assert Run(s, [p, q]) == Run(s1, [q]);
    assert Run(s1, [q]) == Run(Step(s1, q), []);
  }

  lemma RunThree(s: State, p: Packet, q: Packet, r: Packet)
    ensures Run(s, [p, q, r]) == Step(Step(Step(s, p), q), r)
  {
    assert [p, q, r][1..] == [q, r];
    RunTwo(Step(s, p), q, r);
  }
}
