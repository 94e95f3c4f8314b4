/** The file store: one directory for sent messages, one for received ones, changed by single
    file-system steps. A crash can fall after any of them, so every method also says what each
    state it passes through would be recovered as. */
module FileStores {
  import opened Bytes
  import opened SentStores
  import Inbound
  import Outbound

  type Files = map<string, seq<byte>>

  // ----- File names -----------------------------------------------------------------------------

  predicate IsDigit(c: char) {
    '0' <= c <= '9'
  }

  /** What the pattern \d+ matches. */
  predicate IsKey(s: string) {
    |s| > 0 && forall i :: 0 <= i < |s| ==> IsDigit(s[i])
  }

  /** The decimal text of a number. */
  function Decimal(n: nat): string {
    if n < 10 then [Digit(n)] else Decimal(n / 10) + [Digit(n % 10)]
  }

  function Digit(d: nat): char
    requires d < 10
  {
    '0' + d as char
  }

  /** Every number has a key, and no two share one. */
  lemma {:induction false} DecimalIsKey(m: nat, n: nat)
    ensures IsKey(Decimal(m))
    ensures Decimal(m) == Decimal(n) ==> m == n
    decreases m
  {
    var a, b := Decimal(m), Decimal(n);
    if m >= 10 {
      DecimalIsKey(m / 10, n / 10);
      assert a[..|a| - 1] == Decimal(m / 10);
    } else {
      DecimalNotEmpty(n / 10);
    }
    if a == b {
      assert a[|a| - 1] == b[|b| - 1];
      assert m % 10 == n % 10;
      if n >= 10 { assert b[..|b| - 1] == Decimal(n / 10); DecimalNotEmpty(n / 10); }
      if m >= 10 { DecimalNotEmpty(m / 10); }
    }
  }

  lemma {:induction false} DecimalNotEmpty(n: nat)
    ensures |Decimal(n)| > 0
  {
  }

  function UpdName(key: string): string {
    key + "u"
  }

  function TmpName(key: string, suffix: string, pid: string): string {
    "tmp" + key + suffix + "_" + pid
  }

  predicate IsUpdName(n: string) {
    |n| > 0 && n[|n| - 1] == 'u' && IsKey(n[..|n| - 1])
  }

  /** The three kinds of name never meet. */
  lemma {:induction false} NamesDiffer(key: string, suffix: string, pid: string)
    ensures !IsKey(UpdName(key)) && (IsUpdName(UpdName(key)) <==> IsKey(key)) && UpdName(key)[..|key|] == key
    ensures var t := TmpName(key, suffix, pid); !IsKey(t) && !IsUpdName(t)
    ensures IsKey(key) ==> !IsUpdName(key)
  {
    var u, t := UpdName(key), TmpName(key, suffix, pid);
    assert u[|u| - 1] == 'u' && u[..|u| - 1] == key;
    assert t[0] == 't' && (|t| > 1 ==> t[..|t| - 1][0] == 't');
  }

  // ----- What a directory stands for ------------------------------------------------------------

  function UpdKeys(f: Files): set<string> {
    set n | n in f && IsUpdName(n) :: n[..|n| - 1]
  }

  lemma {:induction false} UpdKeysIff(f: Files, k: string)
    ensures k in UpdKeys(f) <==> IsKey(k) && UpdName(k) in f
  {
    NamesDiffer(k, "", "");
    if k in UpdKeys(f) {
      var n :| n in f && IsUpdName(n) && n[..|n| - 1] == k;
      assert n == UpdName(k);
    }
    if IsKey(k) && UpdName(k) in f {
      assert UpdName(k)[..|UpdName(k)| - 1] == k;
    }
  }

  function PlainOf(f: Files): map<string, seq<byte>> {
    map n | n in f && IsKey(n) :: f[n]
  }

  function UpdOf(f: Files): map<string, seq<byte>> {
    map k | k in UpdKeys(f) :: (UpdKeysIff(f, k); f[UpdName(k)])
  }

  /** The files of the sent directory as a store. */
  function Sent(f: Files): Store<string, seq<byte>> {
    Store(PlainOf(f), UpdOf(f))
  }

  ghost predicate SameAt(f: Files, g: Files, n: string) {
    (n in f <==> n in g) && (n in f ==> f[n] == g[n])
  }

  lemma {:induction false} OthersSame(f: Files, t: string, data: seq<byte>)
    ensures var g, h := f[t := data], f - {t}; forall n :: n != t ==> SameAt(g, f, n) && SameAt(h, f, n)
  {
    var g, h := f[t := data], f - {t};
    forall n | n != t ensures SameAt(g, f, n) && SameAt(h, f, n) {
      assert n !in {t};
    }
  }

  /** Directories with the same message files are the same store. */
  lemma {:induction false} PlainSame(f: Files, g: Files)
    requires forall n :: IsKey(n) ==> SameAt(f, g, n)
    ensures PlainOf(f) == PlainOf(g)
  {
    forall n | IsKey(n) ensures n in f <==> n in g { assert SameAt(f, g, n); }
    forall n | n in PlainOf(f) ensures PlainOf(f)[n] == PlainOf(g)[n] { assert SameAt(f, g, n); }
  }

  lemma {:induction false} UpdSame(f: Files, g: Files)
    requires forall n :: IsUpdName(n) ==> SameAt(f, g, n)
    ensures UpdOf(f) == UpdOf(g)
  {
    hide IsUpdName, IsKey;
    forall k ensures k in UpdKeys(f) <==> k in UpdKeys(g)
    {
      UpdKeysIff(f, k);
      UpdKeysIff(g, k);
      NamesDiffer(k, "", "");
      assert IsKey(k) ==> SameAt(f, g, UpdName(k));
    }
    forall k | k in UpdKeys(f) ensures UpdOf(f)[k] == UpdOf(g)[k] {
      UpdKeysIff(f, k);
      NamesDiffer(k, "", "");
      assert SameAt(f, g, UpdName(k));
    }
  }

  lemma {:induction false} SentTmp(f: Files, key: string, suffix: string, pid: string, data: seq<byte>)
    ensures var t := TmpName(key, suffix, pid);
      && Sent(f[t := data]) == Sent(f) && Sent(f - {t}) == Sent(f)
      && PlainOf(f[t := data]) == PlainOf(f) && PlainOf(f - {t}) == PlainOf(f)
  {
    NamesDiffer(key, suffix, pid);
    hide IsUpdName, IsKey;
    var t := TmpName(key, suffix, pid);
    OthersSame(f, t, data);
    PlainSame(f[t := data], f);
    PlainSame(f - {t}, f);
    UpdSame(f[t := data], f);
    UpdSame(f - {t}, f);
  }

  lemma {:induction false} SentPlain(f: Files, key: string, data: seq<byte>)
    requires IsKey(key)
    ensures PlainOf(f[key := data]) == PlainOf(f)[key := data] && PlainOf(f - {key}) == PlainOf(f) - {key}
    ensures UpdOf(f[key := data]) == UpdOf(f) && UpdOf(f - {key}) == UpdOf(f)
  {
    hide IsUpdName, UpdOf;
    NamesDiffer(key, "", "");
    OthersSame(f, key, data);
    UpdSame(f[key := data], f);
    UpdSame(f - {key}, f);
  }

  lemma {:induction false} SentUpd(f: Files, key: string, data: seq<byte>)
    requires IsKey(key)
    ensures var u := UpdName(key);
      && PlainOf(f[u := data]) == PlainOf(f) && PlainOf(f - {u}) == PlainOf(f)
      && UpdOf(f[u := data]) == UpdOf(f)[key := data] && UpdOf(f - {u}) == UpdOf(f) - {key}
  {
    hide IsUpdName, IsKey;
    var u := UpdName(key);
    NamesDiffer(key, "", "");
    OthersSame(f, u, data);
    PlainSame(f[u := data], f);
    PlainSame(f - {u}, f);
    UpdPut(f, key, data);
    UpdRemoved(f, key);
  }

  lemma {:induction false} UpdPut(f: Files, key: string, data: seq<byte>)
    requires IsKey(key)
    ensures UpdOf(f[UpdName(key) := data]) == UpdOf(f)[key := data]
  {
    hide IsKey, UpdName;
    var g := f[UpdName(key) := data];
    forall k ensures k in UpdKeys(g) <==> k in UpdKeys(f) || k == key {
      UpdKeysIff(f, k);
      UpdKeysIff(g, k);
      UpdNameInjective(k, key);
    }
    forall k | k in UpdKeys(g) ensures UpdOf(g)[k] == UpdOf(f)[key := data][k] {
      UpdNameInjective(k, key);
    }
  }

  lemma {:induction false} UpdRemoved(f: Files, key: string)
    requires IsKey(key)
    ensures UpdOf(f - {UpdName(key)}) == UpdOf(f) - {key}
  {
    hide IsKey, UpdName;
    var g := f - {UpdName(key)};
    forall k ensures k in UpdKeys(g) <==> k in UpdKeys(f) && k != key {
      UpdKeysIff(f, k);
      UpdKeysIff(g, k);
      UpdNameInjective(k, key);
    }
    forall k | k in UpdKeys(g) ensures UpdOf(g)[k] == UpdOf(f)[k] {
      UpdKeysIff(g, k);
    }
  }

  lemma {:induction false} UpdNameInjective(a: string, b: string)
    ensures UpdName(a) == UpdName(b) ==> a == b
  {
    assert UpdName(a)[..|UpdName(a)| - 1] == a && UpdName(b)[..|UpdName(b)| - 1] == b;
  }

  // ----- Crash points ---------------------------------------------------------------------------

  /** Every state from old to new stands for one of three stores: the one before the call, the one half
      way, the one after it. */
  ghost predicate Through(was: seq<Files>, now: seq<Files>, before: Store<string, seq<byte>>,
                          half: Store<string, seq<byte>>, after: Store<string, seq<byte>>) {
    && |was| <= |now|
    && forall i :: |was| <= i < |now| ==> Sent(now[i]) == before || Sent(now[i]) == half || Sent(now[i]) == after
  }

  /** Every state from old to new stands for one of the two views. */
  ghost predicate AtomicSent(was: seq<Files>, now: seq<Files>,
                             before: map<string, seq<byte>>, after: map<string, seq<byte>>) {
    && |was| <= |now|
    && forall i :: |was| <= i < |now| ==> Sent(now[i]).View() == before || Sent(now[i]).View() == after
  }

  ghost predicate AtomicRcvd(was: seq<Files>, now: seq<Files>,
                             before: map<string, seq<byte>>, after: map<string, seq<byte>>) {
    && |was| <= |now|
    && forall i :: |was| <= i < |now| ==> PlainOf(now[i]) == before || PlainOf(now[i]) == after
  }

  function SetByte(data: seq<byte>, at: nat, b: byte): seq<byte>
    requires at < |data|
  {
    data[at := b]
  }

  /** How the system calls of one addMessage turn out; `written` is what syswrite returns. */
  datatype Io = Io(created: bool, written: nat, closed: bool, renamed: bool, cleaned: bool)

  datatype UnlinkResult = Removed | NoEntry | Failed

  /** A directory and the history of its states. */
  class Folder {
    var files: Files
    const pid: string
    ghost var trace: seq<Files>

    constructor (files: Files, pid: string)
      ensures this.files == files && this.pid == pid && trace == []
    {
      this.files, this.pid, trace := files, pid, [];
    }

    method Create(name: string)
      modifies this
      ensures files == old(files)[name := []] && trace == old(trace) + [files]
    {
      files := files[name := []];
      trace := trace + [files];
    }

    method Append(name: string, data: seq<byte>)
      requires name in files
      modifies this
      ensures files == old(files)[name := old(files)[name] + data] && trace == old(trace) + [files]
    {
      files := files[name := files[name] + data];
      trace := trace + [files];
    }

    method Overwrite(name: string, at: nat, b: byte)
      requires name in files && at < |files[name]|
      modifies this
      ensures files == old(files)[name := SetByte(old(files)[name], at, b)] && trace == old(trace) + [files]
    {
      files := files[name := SetByte(files[name], at, b)];
      trace := trace + [files];
    }

    method Rename(from: string, to: string)
      requires from in files
      modifies this
      ensures files == (old(files) - {from})[to := old(files)[from]] && trace == old(trace) + [files]
    {
      var data := files[from];
      files := (files - {from})[to := data];
      trace := trace + [files];
    }

    method Unlink(name: string, ok: bool) returns (r: UnlinkResult)
      modifies this
      ensures r == if !ok then Failed else if name in old(files) then Removed else NoEntry
      ensures files == (if ok then old(files) - {name} else old(files)) && trace == old(trace) + [files]
    {
      if !ok {
        r := Failed;
      } else if name in files {
        files := files - {name};
        r := Removed;
      } else {
        assert files - {name} == files;
        r := NoEntry;
      }
      trace := trace + [files];
    }

    /** addMessage: write a temporary file, then rename it. Only the rename shows, and only then
        does the call succeed. */
    method AddMessage(key: string, data: seq<byte>, suffix: string, io: Io) returns (rc: int)
      requires IsKey(key) && (suffix == "" || suffix == "u")
      requires io.written <= |data|
      modifies this
      ensures rc == if io.created && io.written == |data| && io.closed && io.renamed then 0 else 1
      ensures rc != 0 ==> Sent(files) == old(Sent(files)) && PlainOf(files) == old(PlainOf(files))
      ensures rc == 0 && suffix == "" ==> Sent(files) == old(Sent(files)).Add(key, data, Written)
      ensures rc == 0 && suffix == "u" ==> Sent(files) == old(Sent(files)).Update(key, data, WrittenOldKept)
      ensures |trace| >= |old(trace)| && trace[..|old(trace)|] == old(trace)
      ensures forall i :: |old(trace)| <= i < |trace| ==>
                Sent(trace[i]) == old(Sent(files)) || Sent(trace[i]) == Sent(files)
      ensures forall i :: |old(trace)| <= i < |trace| ==>
                PlainOf(trace[i]) == old(PlainOf(files)) || PlainOf(trace[i]) == PlainOf(files)
    {
      hide Sent, PlainOf, TmpName;
      ghost var f := files;
      var tmp := TmpName(key, suffix, pid);
      if !io.created {
        return 1;
      }
      Create(tmp);
      SentTmp(f, key, suffix, pid, []);
      Append(tmp, data[..io.written]);
      assert [] + data[..io.written] == data[..io.written];
      assert files == f[tmp := data[..io.written]];
      SentTmp(f, key, suffix, pid, data[..io.written]);
      if io.written != |data| || !io.closed || !io.renamed {
        ghost var g := files;
        var _ := Unlink(tmp, io.cleaned);
        SentTmp(g, key, suffix, pid, []);
        return 1;
      }
      assert data[..io.written] == data;
      Rename(tmp, key + suffix);
      RenamedTmp(f, key, suffix, pid, data);
      return 0;
    }
  }

  /** Renaming the finished temporary file adds the message. */
  lemma {:induction false} RenamedTmp(f: Files, key: string, suffix: string, pid: string, data: seq<byte>)
    requires IsKey(key) && (suffix == "" || suffix == "u")
    ensures var t := TmpName(key, suffix, pid);
      var g := (f[t := data] - {t})[key + suffix := data];
      Sent(g) == if suffix == "" then Sent(f).Add(key, data, Written) else Sent(f).Update(key, data, WrittenOldKept)
  {
    hide PlainOf, UpdOf;
    var t := TmpName(key, suffix, pid);
    SentTmp(f, key, suffix, pid, data);
    SentTmp(f[t := data], key, suffix, pid, data);
    var h := f[t := data] - {t};
    if suffix == "" {
      assert key + suffix == key;
      SentPlain(h, key, data);
    } else {
      assert key + suffix == UpdName(key);
      SentUpd(h, key, data);
    }
  }

  // ----- What one call changes for a reload -----------------------------------------------------

  /** An added message shows up exactly if the key has no release that was never deleted. */
  lemma {:induction false} AddShowsIff<V>(s: Store<string, V>, key: string, v: V)
    ensures var w := s.Add(key, v, Written).View(); w == s.View()[key := v] <==> (key in s.upd ==> s.upd[key] == v)
    ensures key in s.upd ==> s.Add(key, v, Written).View() == s.View()
  {
    var w := s.Add(key, v, Written).View();
    assert key in s.upd ==> w[key] == s.upd[key];
  }

  /** A release shows as soon as it is written, whether or not the message it replaces is gone. */
  lemma {:induction false} UpdateShows<V>(s: Store<string, V>, key: string, v: V)
    ensures s.Update(key, v, Written).View() == s.View()[key := v]
    ensures s.Update(key, v, WrittenOldKept).View() == s.View()[key := v]
  {
  }

  /** Deleting in this order never brings back the message a release replaced. */
  lemma {:induction false} DeleteShows<V>(s: Store<string, V>, key: string)
    ensures s.Delete(key, BothRemoved).View() == s.View() - {key}
    ensures s.Delete(key, PlainRemoved).View() == if key in s.upd then s.View() else s.View() - {key}
  {
  }

  /** The other order would: with the release gone first, the message is back. */
  lemma {:induction false} OtherOrderResurrects()
    ensures exists s: Store<string, int>, key ::
              var t := Store(s.plain, s.upd - {key}); t.View() != s.View() && t.View() != s.View() - {key}
  {
    var s: Store<string, int> := Store(map["1" := 1], map["1" := 2]);
    var t := Store(s.plain, s.upd - {"1"});
    assert s.View()["1"] == 2 && t.View()["1"] == 1;
  }

  // ----- Flag byte of a received message --------------------------------------------------------

  function WithLowBit(b: byte): byte {
    if b % 2 == 1 then b else b + 1
  }

  /** The last byte ORed with 1. */
  function Released(data: seq<byte>): seq<byte>
    requires data != []
  {
    SetByte(data, |data| - 1, WithLowBit(data[|data| - 1]))
  }

  /** The same bytes with the lowest bit of the last one set, and no other bit changed. */
  predicate FlagSet(was: seq<byte>, now: seq<byte>) {
    && was != [] && |now| == |was| && now[..|was| - 1] == was[..|was| - 1]
    && now[|was| - 1] % 2 == 1 && now[|was| - 1] / 2 == was[|was| - 1] / 2
  }

  lemma {:induction false} ReleasedIff(data: seq<byte>, now: seq<byte>)
    requires data != []
    ensures now == Released(data) <==> FlagSet(data, now)
  {
    var n := |data| - 1;
    if FlagSet(data, now) {
      assert now == now[..n] + [now[n]];
      assert Released(data) == data[..n] + [WithLowBit(data[n])];
    }
  }

  /** The files hold the received messages that the engine believes to be stored. */
  ghost predicate Keeps(p: map<string, seq<byte>>, rcvd: map<nat, Inbound.Received>) {
    forall k: nat :: (k in rcvd <==> Decimal(k) in p) && (k in rcvd ==> p[Decimal(k)] == rcvd[k].bytes)
  }

  predicate OneBit(rcvd: map<nat, Inbound.Received>, k: nat) {
    k in rcvd && rcvd[k].bytes != [] && rcvd[k].bytes[|rcvd[k].bytes| - 1] <= 1
  }

  /** What the calls do to the files is what the engine takes them to do: adding and deleting a message, and
      for a message whose flag is 0 or 1 setting the flag. */
  lemma {:induction false} FilesKeep(p: map<string, seq<byte>>, rcvd: map<nat, Inbound.Received>,
                                     k: nat, v: Inbound.Received)
    requires Keeps(p, rcvd)
    ensures Keeps(p[Decimal(k) := v.bytes], rcvd[k := v]) && Keeps(p - {Decimal(k)}, rcvd - {k})
    ensures OneBit(rcvd, k) ==>
              && Decimal(k) in p && p[Decimal(k)] != []
              && Keeps(p[Decimal(k) := Released(p[Decimal(k)])], Inbound.SetReleased(rcvd, k, Inbound.Set))
  {
    hide Decimal;
    forall l: nat ensures Decimal(l) == Decimal(k) <==> l == k { DecimalIsKey(k, l); }
    if OneBit(rcvd, k) {
      var d := rcvd[k].bytes;
      assert Released(d) == Inbound.SetFlag(d, Inbound.RELEASED);
    }
  }

  /** The files hold the sent messages, and their releases, that the engine believes to be stored. */
  ghost predicate SentKeeps(f: Store<string, seq<byte>>, e: Store<nat, Outbound.Stored>) {
    SameMessages(f.plain, e.plain) && SameMessages(f.upd, e.upd)
  }

  ghost predicate SameMessages(p: map<string, seq<byte>>, e: map<nat, Outbound.Stored>) {
    forall k: nat :: (k in e <==> Decimal(k) in p) && (k in e ==> p[Decimal(k)] == ToBytes(e[k].data))
  }

  /** However a call ends, it does to the files what the engine takes it to do. */
  lemma {:induction false} SentFilesKeep(f: Store<string, seq<byte>>, e: Store<nat, Outbound.Stored>,
                                         k: nat, v: Outbound.Stored, put: PutResult, del: DelResult)
    requires SentKeeps(f, e)
    ensures SentKeeps(f.Add(Decimal(k), ToBytes(v.data), put), e.Add(k, v, put))
    ensures SentKeeps(f.Update(Decimal(k), ToBytes(v.data), put), e.Update(k, v, put))
    ensures SentKeeps(f.Delete(Decimal(k), del), e.Delete(k, del))
  {
    hide SameMessages, Decimal, ToBytes;
    OneChanged(f.plain, e.plain, k, v);
    OneChanged(f.upd, e.upd, k, v);
  }

  lemma {:induction false} OneChanged(p: map<string, seq<byte>>, e: map<nat, Outbound.Stored>, k: nat,
                                      v: Outbound.Stored)
    requires SameMessages(p, e)
    ensures SameMessages(p[Decimal(k) := ToBytes(v.data)], e[k := v]) && SameMessages(p - {Decimal(k)}, e - {k})
  {
    hide Decimal, ToBytes;
    forall l: nat ensures Decimal(l) == Decimal(k) <==> l == k { DecimalIsKey(k, l); }
  }

  /** How the system calls of updReceivedMessage turn out. */
  datatype FlagIo = FlagIo(readOk: bool, written: bool, closed: bool)

  /** An element of the flat list that the reload functions return. */
  datatype Cell = Key(key: string) | Data(data: seq<byte>)

  /** A directory listing: every file once, in any order. */
  ghost predicate Names(listing: seq<string>, f: Files) {
    && (forall i :: 0 <= i < |listing| ==> listing[i] in f)
    && (forall i, j :: 0 <= i < j < |listing| ==> listing[i] != listing[j])
    && (forall n :: n in f ==> n in listing)
  }

  /** `res` is the flat list of keys and data that stands for `msgs`. */
  ghost predicate FlatOf(res: seq<Cell>, msgs: seq<(string, seq<byte>)>) {
    && |res| == 2 * |msgs|
    && (forall j :: 0 <= j < |msgs| ==> res[2 * j] == Key(msgs[j].0) && res[2 * j + 1] == Data(msgs[j].1))
  }

  /** `res` lists the keys and data of a map, each key once. */
  ghost predicate Shows(res: seq<Cell>, view: map<string, seq<byte>>) {
    exists msgs :: FlatOf(res, msgs) && Lists(msgs, view)
  }

  /** `seen` gives, for the keys of `msgs`, the place of their data; no place is 0, which Perl
      would take for absent. */
  ghost predicate Remembered(seen: map<string, nat>, msgs: seq<(string, seq<byte>)>) {
    && (forall j {:trigger msgs[j]} :: 0 <= j < |msgs| ==> msgs[j].0 in seen && seen[msgs[j].0] == 2 * j + 1)
    && (forall k :: k in seen ==> ListsKey(msgs, k))
  }

  predicate ListsKey(msgs: seq<(string, seq<byte>)>, k: string) {
    exists j :: 0 <= j < |msgs| && msgs[j].0 == k
  }

  predicate True(seen: map<string, nat>, key: string) {
    key in seen && seen[key] != 0
  }

  /** The state of the reload loop: what it returns so far is what the files read so far stand for. */
  ghost predicate LoadState(res: seq<Cell>, seen: map<string, nat>, msgs: seq<(string, seq<byte>)>, got: Files) {
    FlatOf(res, msgs) && Remembered(seen, msgs) && Lists(msgs, Sent(got).View())
  }

  lemma {:induction false} SeenIffShown(res: seq<Cell>, seen: map<string, nat>, msgs: seq<(string, seq<byte>)>,
                                        got: Files, k: string)
    requires LoadState(res, seen, msgs, got)
    ensures True(seen, k) <==> k in Sent(got).View()
  {
    if k in Sent(got).View() {
      var j :| 0 <= j < |msgs| && msgs[j].0 == k;
    }
    if k in seen {
      var j :| 0 <= j < |msgs| && msgs[j].0 == k;
    }
  }

  lemma {:induction false} FlatAppend(res: seq<Cell>, seen: map<string, nat>, msgs: seq<(string, seq<byte>)>, k: string,
                                      data: seq<byte>)
    requires FlatOf(res, msgs) && Remembered(seen, msgs) && k !in seen
    ensures FlatOf(res + [Key(k), Data(data)], msgs + [(k, data)])
    ensures Remembered(seen[k := |res| + 1], msgs + [(k, data)])
  {
    var m, seen1 := msgs + [(k, data)], seen[k := |res| + 1];
    assert m[|msgs|] == (k, data);
    forall l | l in seen1 ensures ListsKey(m, l) {
      if l != k {
        var j :| 0 <= j < |msgs| && msgs[j].0 == l;
        assert m[j].0 == l;
      }
    }
  }

  lemma {:induction false} FlatReplace(res: seq<Cell>, seen: map<string, nat>, msgs: seq<(string, seq<byte>)>, j: nat,
                                       data: seq<byte>)
    requires FlatOf(res, msgs) && Remembered(seen, msgs) && j < |msgs|
    ensures msgs[j].0 in seen && seen[msgs[j].0] == 2 * j + 1 < |res|
    ensures FlatOf(res[2 * j + 1 := Data(data)], msgs[j := (msgs[j].0, data)])
    ensures Remembered(seen, msgs[j := (msgs[j].0, data)])
  {
    var m := msgs[j := (msgs[j].0, data)];
    assert forall i :: 0 <= i < |m| ==> m[i].0 == msgs[i].0;
    forall l | l in seen ensures ListsKey(m, l) {
      var i :| 0 <= i < |msgs| && msgs[i].0 == l;
      assert m[i].0 == l;
    }
  }

  lemma {:induction false} SeenPlace(res: seq<Cell>, seen: map<string, nat>, msgs: seq<(string, seq<byte>)>, got: Files,
                                     k: string)
    returns (j: nat)
    requires LoadState(res, seen, msgs, got) && True(seen, k)
    ensures j < |msgs| && msgs[j].0 == k
  {
    j :| 0 <= j < |msgs| && msgs[j].0 == k;
  }

  /** Reading a release, or a message whose key is not shown yet. */
  lemma {:induction false} ViewPut(got: Files, name: string, k: string, data: seq<byte>)
    requires IsKey(k) && (name == UpdName(k) || (name == k && k !in Sent(got).View()))
    ensures Sent(got[name := data]).View() == Sent(got).View()[k := data]
  {
    hide PlainOf, UpdOf, IsKey, UpdName;
    SentPlain(got, k, data);
    SentUpd(got, k, data);
  }

  /** A key seen for the first time. */
  lemma {:induction false} LoadNew(res: seq<Cell>, seen: map<string, nat>, msgs: seq<(string, seq<byte>)>, got: Files,
                                    name: string, k: string, data: seq<byte>)
    requires LoadState(res, seen, msgs, got) && !True(seen, k) && IsKey(k) && (name == k || name == UpdName(k))
    ensures LoadState(res + [Key(k), Data(data)], seen[k := |res| + 1], msgs + [(k, data)], got[name := data])
  {
    hide Sent, IsKey, UpdName, FlatOf, Remembered, Lists, True;
    SeenIffShown(res, seen, msgs, got, k);
    SeenIsTrue(res, seen, msgs, got, k);
    ViewPut(got, name, k, data);
    ListsAppend(msgs, Sent(got).View(), k, data);
    FlatAppend(res, seen, msgs, k, data);
  }

  lemma {:induction false} SeenIsTrue(res: seq<Cell>, seen: map<string, nat>, msgs: seq<(string, seq<byte>)>,
                                      got: Files, k: string)
    requires LoadState(res, seen, msgs, got)
    ensures True(seen, k) <==> k in seen
  {
    if k in seen {
      var j :| 0 <= j < |msgs| && msgs[j].0 == k;
    }
  }

  /** A release read after the message it replaces. */
  lemma {:induction false} LoadRelease(res: seq<Cell>, seen: map<string, nat>, msgs: seq<(string, seq<byte>)>,
                                       got: Files, k: string, data: seq<byte>) returns (j: nat)
    requires LoadState(res, seen, msgs, got) && True(seen, k) && IsKey(k)
    ensures seen[k] < |res| && j < |msgs|
    ensures LoadState(res[seen[k] := Data(data)], seen, msgs[j := (k, data)], got[UpdName(k) := data])
  {
    hide Sent, IsKey, UpdName, FlatOf, Remembered, Lists, True;
    j := SeenPlace(res, seen, msgs, got, k);
    FlatReplace(res, seen, msgs, j, data);
    ViewPut(got, UpdName(k), k, data);
    ListsReplace(msgs, Sent(got).View(), j, data);
  }

  /** A message whose release was read before it, and a file that is no message. */
  lemma {:induction false} LoadIgnored(res: seq<Cell>, seen: map<string, nat>, msgs: seq<(string, seq<byte>)>,
                                       got: Files, name: string, data: seq<byte>)
    requires LoadState(res, seen, msgs, got) && name !in got
    requires if IsKey(name) then True(seen, name) else !IsUpdName(name)
    ensures LoadState(res, seen, msgs, got[name := data])
  {
    hide Sent, FlatOf, Remembered, Lists;
    if IsKey(name) {
      SeenIffShown(res, seen, msgs, got, name);
      ViewHidden(got, name, data);
    } else {
      ViewOther(got, name, data);
    }
  }

  lemma {:induction false} ViewHidden(got: Files, name: string, data: seq<byte>)
    requires IsKey(name) && name !in got && name in Sent(got).View()
    ensures Sent(got[name := data]).View() == Sent(got).View()
  {
    hide PlainOf, UpdOf, IsKey;
    SentPlain(got, name, data);
    NotPlain(got, name);
  }

  lemma {:induction false} ViewOther(got: Files, name: string, data: seq<byte>)
    requires !IsKey(name) && !IsUpdName(name)
    ensures Sent(got[name := data]) == Sent(got) && PlainOf(got[name := data]) == PlainOf(got)
  {
    hide IsKey, IsUpdName;
    OthersSame(got, name, data);
    PlainSame(got[name := data], got);
    UpdSame(got[name := data], got);
  }

  lemma {:induction false} NotPlain(f: Files, name: string)
    requires name !in f
    ensures name !in PlainOf(f)
  {
  }

  /** The store keeps sent and received messages apart. */
  class FileStore {
    const sent: Folder
    const rcvd: Folder

    ghost predicate Valid()
      reads this
    {
      sent != rcvd
    }

    /** What the files of the sent directory stand for, and what a reload would make of them. */
    ghost function SentStore(): Store<string, seq<byte>>
      reads sent
    {
      Sent(sent.files)
    }

    ghost function SentView(): map<string, seq<byte>>
      reads sent
    {
      Sent(sent.files).View()
    }

    ghost function RcvdView(): map<string, seq<byte>>
      reads rcvd
    {
      PlainOf(rcvd.files)
    }

    constructor (sent: Folder, rcvd: Folder)
      requires sent != rcvd
      ensures Valid() && this.sent == sent && this.rcvd == rcvd
    {
      this.sent, this.rcvd := sent, rcvd;
    }

    method AddSentMessage(key: string, data: seq<byte>, io: Io) returns (rc: int)
      requires Valid() && IsKey(key) && io.written <= |data|
      modifies sent
      ensures var put := if rc == 0 then Written else Refused; SentStore() == old(SentStore()).Add(key, data, put)
      ensures Through(old(sent.trace), sent.trace, old(SentStore()), old(SentStore()).Add(key, data, Written),
                      old(SentStore()).Add(key, data, Written))
      ensures AtomicSent(old(sent.trace), sent.trace, old(SentView()), SentView())
    {
      hide PlainOf, UpdOf, IsKey;
      rc := sent.AddMessage(key, data, "", io);
    }

    method UpdSentMessage(key: string, data: seq<byte>, io: Io, unlinked: bool) returns (rc: int)
      requires Valid() && IsKey(key) && io.written <= |data|
      modifies sent
      ensures var put := if rc != 0 then Refused else if unlinked then Written else WrittenOldKept;
        SentStore() == old(SentStore()).Update(key, data, put)
      ensures Through(old(sent.trace), sent.trace, old(SentStore()), old(SentStore()).Update(key, data, WrittenOldKept),
                      old(SentStore()).Update(key, data, Written))
      ensures AtomicSent(old(sent.trace), sent.trace, old(SentView()), old(SentView())[key := data])
    {
      hide PlainOf, UpdOf, IsKey;
      ghost var s := Sent(sent.files);
      rc := sent.AddMessage(key, data, "u", io);
      UpdateShows(s, key, data);
      if rc == 0 {
        ghost var f := sent.files;
        var _ := sent.Unlink(key, unlinked);
        SentPlain(f, key, []);
      }
    }

    method DelSentMessage(key: string, firstOk: bool, secondOk: bool) returns (rc: int)
      requires Valid() && IsKey(key)
      modifies sent
      ensures rc == if firstOk && secondOk then 0 else 1
      ensures var del := if !firstOk then NothingRemoved else if !secondOk then PlainRemoved else BothRemoved;
        SentStore() == old(SentStore()).Delete(key, del)
      ensures Through(old(sent.trace), sent.trace, old(SentStore()), old(SentStore()).Delete(key, PlainRemoved),
                      old(SentStore()).Delete(key, BothRemoved))
      ensures AtomicSent(old(sent.trace), sent.trace, old(SentView()), old(SentView()) - {key})
    {
      hide PlainOf, UpdOf, IsKey;
      ghost var f := sent.files;
      DeleteShows(Sent(f), key);
      SentPlain(f, key, []);
      var r := sent.Unlink(key, firstOk);
      if r == Failed {
        return 1;
      }
      ghost var g := sent.files;
      SentUpd(g, key, []);
      r := sent.Unlink(UpdName(key), secondOk);
      if r == Failed {
        return 1;
      }
      return 0;
    }

    method AddReceivedMessage(key: string, data: seq<byte>, io: Io) returns (rc: int)
      requires Valid() && IsKey(key) && io.written <= |data|
      modifies rcvd
      ensures RcvdView() == if rc == 0 then old(RcvdView())[key := data] else old(RcvdView())
      ensures AtomicRcvd(old(rcvd.trace), rcvd.trace, old(RcvdView()), RcvdView())
    {
      hide PlainOf, UpdOf, IsKey;
      ghost var s := Sent(rcvd.files);
      rc := rcvd.AddMessage(key, data, "", io);
      assert RcvdView() == Sent(rcvd.files).plain && s.plain == old(RcvdView());
    }

    /** Sets the flag in place. Success means it is set; a call that fails can have set it only if
        the final close failed. */
    method UpdReceivedMessage(key: string, io: FlagIo) returns (rc: int)
      requires Valid() && IsKey(key)
      modifies rcvd
      ensures var p := old(RcvdView());
        && (rc == 0 <==> key in p && p[key] != [] && io.readOk && io.written && io.closed)
        && (rc == 0 ==>
              key in RcvdView() && FlagSet(p[key], RcvdView()[key]) && RcvdView() == p[key := RcvdView()[key]])
        && (rc != 0 && RcvdView() != p ==>
              && !io.closed && key in p && key in RcvdView() && FlagSet(p[key], RcvdView()[key])
              && RcvdView() == p[key := RcvdView()[key]])
      ensures AtomicRcvd(old(rcvd.trace), rcvd.trace, old(RcvdView()), RcvdView())
    {
      if key !in rcvd.files {
        return 1;
      }
      var data := rcvd.files[key];
      if data == [] || !io.readOk {
        return 1;
      }
      var last := WithLowBit(data[|data| - 1]);
      if !io.written {
        return 1;
      }
      SentPlain(rcvd.files, key, Released(data));
      ReleasedIff(data, Released(data));
      rcvd.Overwrite(key, |data| - 1, last);
      return if io.closed then 0 else 1;
    }

    method DelReceivedMessage(key: string, ok: bool) returns (rc: int)
      requires Valid() && IsKey(key)
      modifies rcvd
      ensures rc == 0 <==> ok && key in old(RcvdView())
      ensures RcvdView() == if rc == 0 then old(RcvdView()) - {key} else old(RcvdView())
      ensures AtomicRcvd(old(rcvd.trace), rcvd.trace, old(RcvdView()), RcvdView())
    {
      SentPlain(rcvd.files, key, []);
      var r := rcvd.Unlink(key, ok);
      return if r == Removed then 0 else 1;
    }

    /** One round of the loop in getAllSentMessages. */
    method LoadFile(name: string, unreadable: set<string>, res: seq<Cell>, seen: map<string, nat>,
                    ghost msgs: seq<(string, seq<byte>)>, ghost got: Files)
      returns (res1: seq<Cell>, seen1: map<string, nat>, ghost msgs1: seq<(string, seq<byte>)>, ghost got1: Files)
      requires LoadState(res, seen, msgs, got) && name in sent.files && name !in got
      ensures LoadState(res1, seen1, msgs1, got1)
      ensures got1 == if name in unreadable then got else got[name := sent.files[name]]
    {
      hide LoadState, IsKey, IsUpdName;
      ghost var shown := sent.files[name];
      res1, seen1, msgs1 := res, seen, msgs;
      got1 := if name in unreadable then got else got[name := shown];
      NamesDiffer(name, "", "");
      if !IsKey(name) && !IsUpdName(name) {
        LoadIgnored(res, seen, msgs, got, name, shown);
        return;
      }
      var updated := !IsKey(name);
      var key := KeyOf(name);
      if !updated && True(seen, key) {
        LoadIgnored(res, seen, msgs, got, name, shown);
        return;
      }
      if name in unreadable {
        return;
      }
      var data := sent.files[name];
      if updated && True(seen, key) {
        ghost var j := LoadRelease(res, seen, msgs, got, key, data);
        res1, msgs1 := res[seen[key] := Data(data)], msgs[j := (key, data)];
        return;
      }
      LoadNew(res, seen, msgs, got, name, key, data);
      res1, seen1, msgs1 := res + [Key(key), Data(data)], seen[key := |res| + 1], msgs + [(key, data)];
    }

    /** getAllSentMessages: in whatever order the directory lists its files, the result is what the
        readable files stand for: one message a key, the release where there is one. */
    method GetAllSentMessages(listing: seq<string>, unreadable: set<string>) returns (res: seq<Cell>)
      requires Names(listing, sent.files)
      ensures Shows(res, Sent(sent.files - unreadable).View())
    {
      hide IsKey, IsUpdName, LoadState, PlainOf, UpdOf;
      var seen: map<string, nat>;
      ghost var msgs: seq<(string, seq<byte>)>;
      ghost var got: Files;
      res, seen, msgs, got := [], map[], [], map[];
      NothingLoaded();
      for i := 0 to |listing|
        invariant LoadState(res, seen, msgs, got) && Gathered(got, sent.files, listing[..i], unreadable)
      {
        GatherOne(got, sent.files, listing, i, unreadable);
        res, seen, msgs, got := LoadFile(listing[i], unreadable, res, seen, msgs, got);
      }
      GatheredAll(got, sent.files, listing, unreadable);
      LoadedLists(res, seen, msgs, got);
    }

    /** getAllReceivedMessages. */
    method GetAllReceivedMessages(listing: seq<string>, unreadable: set<string>) returns (res: seq<Cell>)
      requires Names(listing, rcvd.files)
      ensures Shows(res, PlainOf(rcvd.files - unreadable))
    {
      ghost var msgs: seq<(string, seq<byte>)>;
      ghost var got: Files;
      res, msgs, got := [], [], map[];
      assert LoadedRcvd(res, msgs, got);
      hide IsKey, LoadedRcvd, PlainOf, Gathered;
      NothingGathered(rcvd.files, unreadable);
      for i := 0 to |listing|
        invariant LoadedRcvd(res, msgs, got) && Gathered(got, rcvd.files, listing[..i], unreadable)
      {
        var name := listing[i];
        GatherOne(got, rcvd.files, listing, i, unreadable);
        if name !in unreadable {
          ghost var data := rcvd.files[name];
          LoadRcvd(res, msgs, got, name, data);
          got := got[name := data];
          if IsKey(name) {
            res := res + [Key(name), Data(rcvd.files[name])];
            msgs := msgs + [(name, data)];
          }
        }
      }
      GatheredAll(got, rcvd.files, listing, unreadable);
      RcvdLists(res, msgs, got);
    }
  }

  /** A file of the received directory. */
  ghost predicate LoadedRcvd(res: seq<Cell>, msgs: seq<(string, seq<byte>)>, got: Files) {
    FlatOf(res, msgs) && Lists(msgs, PlainOf(got))
  }

  lemma {:induction false} LoadRcvd(res: seq<Cell>, msgs: seq<(string, seq<byte>)>, got: Files, name: string,
                                    data: seq<byte>)
    requires LoadedRcvd(res, msgs, got) && name !in got
    ensures IsKey(name) ==> LoadedRcvd(res + [Key(name), Data(data)], msgs + [(name, data)], got[name := data])
    ensures !IsKey(name) ==> LoadedRcvd(res, msgs, got[name := data])
  {
    hide IsKey, Lists;
    if IsKey(name) {
      NotPlain(got, name);
      SentPlain(got, name, data);
      ListsAppend(msgs, PlainOf(got), name, data);
    } else {
      OthersSame(got, name, data);
      PlainSame(got[name := data], got);
    }
  }

  lemma {:induction false} RcvdLists(res: seq<Cell>, msgs: seq<(string, seq<byte>)>, got: Files)
    requires LoadedRcvd(res, msgs, got)
    ensures FlatOf(res, msgs) && Lists(msgs, PlainOf(got))
  {
  }

  lemma {:induction false} NothingGathered(f: Files, unreadable: set<string>)
    ensures Gathered(map[], f, [], unreadable)
  {
  }

  /** The files of the listing that could be read. */
  ghost predicate Gathered(got: Files, f: Files, listing: seq<string>, unreadable: set<string>) {
    && (forall n :: n in got <==> n in listing && n !in unreadable)
    && (forall n :: n in got ==> n in f && got[n] == f[n])
  }

  lemma {:induction false} GatherOne(got: Files, f: Files, listing: seq<string>, i: nat, unreadable: set<string>)
    requires Names(listing, f) && i < |listing| && Gathered(got, f, listing[..i], unreadable)
    ensures listing[i] in f && listing[i] !in got
    ensures Gathered(if listing[i] in unreadable then got else got[listing[i] := f[listing[i]]],
                     f, listing[..i + 1], unreadable)
  {
    assert listing[..i + 1] == listing[..i] + [listing[i]];
    assert forall j :: 0 <= j < i ==> listing[..i][j] == listing[j];
  }

  lemma {:induction false} GatheredAll(got: Files, f: Files, listing: seq<string>, unreadable: set<string>)
    requires Names(listing, f) && Gathered(got, f, listing[..|listing|], unreadable)
    ensures got == f - unreadable
  {
    assert listing[..|listing|] == listing;
  }

  lemma {:induction false} NothingLoaded()
    ensures LoadState([], map[], [], map[])
  {
    var f: Files := map[];
    forall k ensures k !in UpdOf(f) { UpdKeysIff(f, k); }
    assert Sent(f).View() == map[];
  }

  lemma {:induction false} LoadedLists(res: seq<Cell>, seen: map<string, nat>, msgs: seq<(string, seq<byte>)>,
                                       got: Files)
    requires LoadState(res, seen, msgs, got)
    ensures FlatOf(res, msgs) && Lists(msgs, Sent(got).View())
  {
  }

  /** The key in the name of a message file. */
  function KeyOf(name: string): (key: string)
    ensures IsKey(name) ==> key == name
    ensures IsUpdName(name) ==> IsKey(key) && name == UpdName(key)
  {
    NamesDiffer(name, "", "");
    if IsUpdName(name) then name[..|name| - 1] else name
  }
}
