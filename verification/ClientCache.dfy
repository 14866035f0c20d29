/** The client node's cached snapshot and its stale flag (client_node.py), fed by replies of the data layer
    and by events in any order. */
module ClientCache {
  import opened Linearizability

  /** While nothing is loaded `contentVersion` is 0, and while there is no version `version` is. */
  datatype Cache = Cache(
    version: int, hasVersion: bool,
    content: string, contentVersion: int, contentLoaded: bool, contentStale: bool)

  /** What reaches the node: an event, or the reply to a user's action; `ok` is the status of the reply. */
  datatype Input =
    | OnEvent(version: int)
    | OnLogin(ok: bool, version: int)
    | OnLogout
    | OnRead(ok: bool, content: string, version: int)
    | OnWrite(ok: bool, version: int)

  const EMPTY := Cache(0, false, "", 0, false, false)

  /** A newer or different version than the snapshot's marks the snapshot stale, and nothing else. */
  function Record(c: Cache, v: int): Cache {
    c.(version := v, hasVersion := true, contentStale := c.contentStale || (c.contentLoaded && v != c.contentVersion))
  }

  function Handle(c: Cache, i: Input): Cache {
    match i
    case OnEvent(v) => Record(c, v)
    case OnLogin(ok, v) => if ok then EMPTY.(version := v, hasVersion := true) else c
    case OnLogout => EMPTY
    case OnRead(ok, content, v) => if ok then Cache(v, true, content, v, true, false) else c
    case OnWrite(ok, v) => if ok then Record(c, v) else c
  }

  class ClientNode {
    var version: int
    var hasVersion: bool
    var content: string
    var contentVersion: int
    var contentLoaded: bool
    var contentStale: bool

    function Value(): Cache
      reads this
    {
      Cache(version, hasVersion, content, contentVersion, contentLoaded, contentStale)
    }

    constructor ()
      ensures Value() == EMPTY
    {
      version, hasVersion, content, contentVersion, contentLoaded, contentStale := 0, false, "", 0, false, false;
    }

    method OnEventReceived(newVersion: int)
      modifies this
      ensures Value() == Handle(old(Value()), OnEvent(newVersion))
      ensures hasVersion && version == newVersion
      ensures content == old(content) && contentVersion == old(contentVersion) && contentLoaded == old(contentLoaded)
      ensures contentStale <==> old(contentStale) || (contentLoaded && newVersion != contentVersion)
    {
      version, hasVersion := newVersion, true;
      if contentLoaded && newVersion != contentVersion {
        contentStale := true;
      }
    }

    method ApiLogin(ok: bool, replyVersion: int)
      modifies this
      ensures Value() == Handle(old(Value()), OnLogin(ok, replyVersion))
      ensures ok ==> !contentLoaded && content == "" && contentVersion == 0 && !contentStale
      ensures ok ==> hasVersion && version == replyVersion
      ensures !ok ==> Value() == old(Value())
    {
      if ok {
        version, hasVersion := replyVersion, true;
        content, contentVersion, contentLoaded, contentStale := "", 0, false, false;
      }
    }

    method ApiLogout()
      modifies this
      ensures Value() == Handle(old(Value()), OnLogout)
      ensures !contentLoaded && content == "" && contentVersion == 0 && !contentStale && !hasVersion && version == 0
    {
      version, hasVersion := 0, false;
      content, contentVersion, contentLoaded, contentStale := "", 0, false, false;
    }

    method ApiRead(ok: bool, replyContent: string, replyVersion: int)
      modifies this
      ensures Value() == Handle(old(Value()), OnRead(ok, replyContent, replyVersion))
      ensures ok ==>
                && contentLoaded && content == replyContent && contentVersion == replyVersion && !contentStale
                && hasVersion && version == replyVersion
      ensures !ok ==> Value() == old(Value())
    {
      if ok {
        version, hasVersion := replyVersion, true;
        content, contentVersion, contentLoaded, contentStale := replyContent, replyVersion, true, false;
      }
    }

    method ApiWrite(ok: bool, replyVersion: int)
      modifies this
      ensures Value() == Handle(old(Value()), OnWrite(ok, replyVersion))
      ensures ok ==>
                && hasVersion && version == replyVersion && content == old(content)
                && contentVersion == old(contentVersion) && contentLoaded == old(contentLoaded)
                && (contentStale <==> old(contentStale) || (contentLoaded && replyVersion != contentVersion))
      ensures !ok ==> Value() == old(Value())
    {
      if ok {
        version, hasVersion := replyVersion, true;
        if contentLoaded && replyVersion != contentVersion {
          contentStale := true;
        }
      }
    }
  }

  // ---- the cache and the log of the server -----------------------------------------------------------------

  /** The cache is either empty or exactly the server's log at `contentVersion`; a loaded snapshot that is
      not marked stale is of the last recorded version. */
  ghost predicate CacheHolds(init: string, lines: seq<string>, c: Cache) {
    && (c.contentLoaded ==> 0 <= c.contentVersion <= |lines| && c.content == Text(init, lines[..c.contentVersion]))
    && (!c.contentLoaded ==> c.content == "" && !c.contentStale)
    && (c.contentLoaded && !c.contentStale ==> c.hasVersion && c.version == c.contentVersion)
  }

  /** The log may grow under the cache. */
  lemma CacheKept(init: string, lines: seq<string>, lines': seq<string>, c: Cache)
    requires CacheHolds(init, lines, c) && lines <= lines'
    ensures CacheHolds(init, lines', c)
  {
    if c.contentLoaded { assert lines'[..c.contentVersion] == lines[..c.contentVersion]; }
  }

  /** Whatever a node is told, it keeps to the log, as long as a successful read reply is a state of the log. */
  lemma HandleKeeps(init: string, lines: seq<string>, c: Cache, i: Input)
    requires CacheHolds(init, lines, c)
    requires i.OnRead? && i.ok ==> 0 <= i.version <= |lines| && i.content == Text(init, lines[..i.version])
    ensures CacheHolds(init, lines, Handle(c, i))
  {}

  // ---- exactly when the snapshot is marked stale --------------------------------------------------------------

  function HandleAll(c: Cache, inputs: seq<Input>): Cache {
    if inputs == [] then c else Handle(HandleAll(c, inputs[..|inputs| - 1]), inputs[|inputs| - 1])
  }

  /** Inputs that neither load nor clear the snapshot. */
  predicate Passive(i: Input) {
    i.OnEvent? || i.OnWrite? || ((i.OnLogin? || i.OnRead?) && !i.ok)
  }

  /** An event or a successful write that records a version other than `v`. */
  predicate Advertises(i: Input, v: int) {
    (i.OnEvent? || (i.OnWrite? && i.ok)) && i.version != v
  }

  ghost predicate SomeAdvertises(inputs: seq<Input>, v: int) {
    exists k :: 0 <= k < |inputs| && Advertises(inputs[k], v)
  }

  /** Since its last read the node has marked its snapshot stale if and only if an event or a write reply
      named another version; none of them has touched the snapshot itself. */
  lemma {:induction false} StaleIff(content: string, v: int, inputs: seq<Input>)
    requires forall k | 0 <= k < |inputs| :: Passive(inputs[k])
    ensures var c := HandleAll(Handle(EMPTY, OnRead(true, content, v)), inputs);
            && c.contentLoaded && c.content == content && c.contentVersion == v
            && (c.contentStale <==> SomeAdvertises(inputs, v))
  {
    if inputs != [] {
      var n := |inputs| - 1;
      StaleIff(content, v, inputs[..n]);
      if SomeAdvertises(inputs, v) && !Advertises(inputs[n], v) {
        var k :| 0 <= k < |inputs| && Advertises(inputs[k], v);
        assert Advertises(inputs[..n][k], v);
      }
      if SomeAdvertises(inputs[..n], v) {
        var k :| 0 <= k < n && Advertises(inputs[..n][k], v);
        assert Advertises(inputs[k], v);
      }
    }
  }

  /** An event or a successful write that records a version newer than `v`. */
  predicate Newer(i: Input, v: int) { Advertises(i, v) && i.version > v }

  ghost predicate SomeNewer(inputs: seq<Input>, v: int) {
    exists k :: 0 <= k < |inputs| && Newer(inputs[k], v)
  }

  /** The mark is meant to say that a newer version has been reported. It says so exactly unless only older ones
      have been reported: an event that comes late marks a current snapshot too. */
  lemma {:induction false} MarkIsRightIff(content: string, v: int, inputs: seq<Input>)
    requires forall k | 0 <= k < |inputs| :: Passive(inputs[k])
    ensures var c := HandleAll(Handle(EMPTY, OnRead(true, content, v)), inputs);
            (c.contentStale <==> SomeNewer(inputs, v))
            <==> SomeNewer(inputs, v)
                 || forall k | 0 <= k < |inputs| && Advertises(inputs[k], v) :: inputs[k].version > v
  {
    StaleIff(content, v, inputs);
    if SomeAdvertises(inputs, v) && !SomeNewer(inputs, v) {
      var k :| 0 <= k < |inputs| && Advertises(inputs[k], v);
      assert !Newer(inputs[k], v);
    }
    if SomeNewer(inputs, v) {
      var k :| 0 <= k < |inputs| && Newer(inputs[k], v);
      assert Advertises(inputs[k], v);
    }
  }
}
