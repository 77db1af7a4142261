/** How the checkpoint client and server send each other the files of a directory. */
module CheckpointWire {
  import opened AvlMap
  import opened Listings
  import opened Adler
  import opened Frames

  const CP_BUF_SIZE := 256

  type Name = seq<UChar>
  type Data = seq<UChar>
  type Dir = map<Name, Data>

  const SET: seq<UChar> := ['S' as int as UChar, 'E' as int as UChar, 'T' as int as UChar]
  const EOF: seq<UChar> := ['E' as int as UChar, 'O' as int as UChar, 'F' as int as UChar]

  /** What the format has room for. */
  predicate Fits(f: (Name, Data)) { |f.0| < 256 && |f.1| < 0x1_0000_0000 }

  function FileMessage(f: (Name, Data)): (msg: seq<UChar>)
    requires Fits(f)
    ensures |msg| == 8 + |f.0| + |f.1|
  {
    SET + [|f.0| as UChar] + LittleEndian(|f.1|, 4) + f.0 + f.1
  }

  function Messages(fs: seq<(Name, Data)>): seq<UChar>
    requires forall i :: 0 <= i < |fs| ==> Fits(fs[i])
  {
    if fs == [] then [] else FileMessage(fs[0]) + Messages(fs[1..])
  }

  /** All files, one message each, and the end. */
  function Session(fs: seq<(Name, Data)>): seq<UChar>
    requires forall i :: 0 <= i < |fs| ==> Fits(fs[i])
  {
    Messages(fs) + EOF
  }

  /** The directory after receiving: complete, or as far as the messages went. */
  datatype Outcome = Broken(files: Dir) | Finished(files: Dir, rest: seq<UChar>)

  /** How much of a file is written when only `avail` bytes of it arrive: full buffers only. */
  function Written(avail: nat): (w: nat)
    ensures w <= avail
  {
    avail / CP_BUF_SIZE * CP_BUF_SIZE
  }

  /** The header loop of the receiving end. A file that arrives replaces one of the same name, from the
      moment its name is known. */
  function Receive(dir: Dir, s: seq<UChar>): Outcome
    decreases |s|
  {
    if |s| < 3 then Broken(dir)
    else if s[..3] == SET then
      if |s| < 8 then Broken(dir)
      else
        var n, m := s[3] as nat, FromLittleEndian(s[4..8]);
        if |s| < 8 + n then Broken(dir)
        else if |s| < 8 + n + m then Broken(dir[s[8..8 + n] := s[8 + n..8 + n + Written(|s| - 8 - n)]])
        else Receive(dir[s[8..8 + n] := s[8 + n..8 + n + m]], s[8 + n + m..])
    else if s[..3] == EOF then Finished(dir, s[3..])
    else Broken(dir)
  }

  lemma {:induction false} MessageReceived(dir: Dir, f: (Name, Data), rest: seq<UChar>)
    requires Fits(f)
    ensures Receive(dir, FileMessage(f) + rest) == Receive(dir[f.0 := f.1], rest)
  {
    var s := FileMessage(f) + rest;
    var n, m := |f.0|, |f.1|;
    assert Pow256(4) == 0x1_0000_0000;
    ReadWritten(m, 4);
    hide LittleEndian, FromLittleEndian, Pow256;
    assert s[..3] == SET && s[3] as nat == n && s[4..8] == LittleEndian(m, 4) && |s| == 8 + n + m + |rest|;
    assert s[8..8 + n] == f.0 && s[8 + n..8 + n + m] == f.1 && s[8 + n + m..] == rest;
  }

  lemma {:induction false} EndReceived(dir: Dir, rest: seq<UChar>)
    ensures Receive(dir, EOF + rest) == Finished(dir, rest)
  {
    var s := EOF + rest;
    assert s[..3] == EOF && s[3..] == rest;
    assert EOF[0] != SET[0];
  }

  /** The files of a directory, in some order, none of which is too large for the format. */
  ghost predicate Sendable(fs: seq<(Name, Data)>) {
    && (forall i :: 0 <= i < |fs| ==> Fits(fs[i]))
    && (forall i, j :: 0 <= i < j < |fs| ==> fs[i].0 != fs[j].0)
  }

  lemma {:induction false} SendableRest(fs: seq<(Name, Data)>)
    requires Sendable(fs) && fs != []
    ensures Sendable(fs[1..]) && Fits(fs[0]) && forall i :: 0 <= i < |fs| ==> Fits(fs[i])
  {
    hide Fits;
  }

  lemma {:induction false} SessionReceived(dir: Dir, fs: seq<(Name, Data)>, rest: seq<UChar>)
    requires Sendable(fs)
    ensures Receive(dir, Session(fs) + rest) == Finished(dir + ToMap(fs), rest)
    decreases |fs|
  {
    hide Receive, FileMessage, Fits;
    if fs == [] {
      EndReceived(dir, rest);
      assert dir + ToMap(fs) == dir && Session(fs) == EOF;
    } else {
      var d := dir[fs[0].0 := fs[0].1];
      assert Session(fs) + rest == FileMessage(fs[0]) + (Session(fs[1..]) + rest);
      MessageReceived(dir, fs[0], Session(fs[1..]) + rest);
      SessionReceived(d, fs[1..], rest);
      FirstNotAgain(fs);
      assert d + ToMap(fs[1..]) == dir + ToMap(fs);
    }
  }

  /** A completed transfer overrides the receiver's directory with exactly the sender's files, in
      whatever order the sender reads its directory. */
  lemma {:induction false} TransferOverrides(receiver: Dir, sender: Dir, fs: seq<(Name, Data)>, rest: seq<UChar>)
    requires Enumerates(fs, sender) && forall n :: n in sender ==> Fits((n, sender[n]))
    ensures (forall i :: 0 <= i < |fs| ==> Fits(fs[i]))
    ensures Receive(receiver, Session(fs) + rest) == Finished(receiver + sender, rest)
  {
    hide Fits, Receive, Session;
    forall i | 0 <= i < |fs| ensures Fits(fs[i]) { assert fs[i] == (fs[i].0, sender[fs[i].0]); }
    SessionReceived(receiver, fs, rest);
    EnumeratesAll(fs, sender);
  }

  // ----- a transfer that breaks

  lemma {:induction false} MessageParts(f: (Name, Data))
    requires Fits(f)
    ensures var msg, n := FileMessage(f), |f.0|;
      && |msg| == 8 + n + |f.1|
      && msg[0..3] == SET && msg[3] as nat == n && msg[4..8] == LittleEndian(|f.1|, 4) && msg[8..8 + n] == f.0
      && msg[8 + n..] == f.1
  {}

  lemma {:induction false} SliceOfCut(s: seq<UChar>, c: nat, lo: nat, hi: nat)
    requires lo <= hi <= c <= |s|
    ensures s[..c][lo..hi] == s[lo..hi]
  {}

  /** What is left of `dir` if `c` bytes of the message with file `f` have come: nothing happens before
      the name is complete, and then only full buffers are in place of the old file. */
  function Cut(dir: Dir, f: (Name, Data), c: nat): Dir
    requires c < 8 + |f.0| + |f.1|
  {
    if c < 8 + |f.0| then dir else dir[f.0 := f.1[..Written(c - 8 - |f.0|)]]
  }

  lemma {:induction false} MessageCut(dir: Dir, f: (Name, Data), c: nat)
    requires Fits(f) && c < |FileMessage(f)|
    ensures Receive(dir, FileMessage(f)[..c]) == Broken(Cut(dir, f, c))
  {
    var msg, n, m := FileMessage(f), |f.0|, |f.1|;
    MessageParts(f);
    assert Pow256(4) == 0x1_0000_0000;
    ReadWritten(m, 4);
    hide LittleEndian, FromLittleEndian, Pow256, FileMessage;
    if c >= 3 { SliceOfCut(msg, c, 0, 3); }
    if c >= 8 { SliceOfCut(msg, c, 4, 8); }
    if c >= 8 + n {
      var w := Written(c - 8 - n);
      SliceOfCut(msg, c, 8, 8 + n);
      SliceOfCut(msg, c, 8 + n, 8 + n + w);
      assert msg[8 + n..8 + n + w] == f.1[..w];
    }
  }

  lemma {:induction false} FirstFileMore(dir: Dir, fs: seq<(Name, Data)>, k: nat)
    requires 0 < k <= |fs| && Sendable(fs)
    ensures dir[fs[0].0 := fs[0].1] + ToMap(fs[1..][..k - 1]) == dir + ToMap(fs[..k])
  {
    hide Fits;
    FirstNotAgain(fs[..k]);
    assert fs[..k][1..] == fs[1..][..k - 1];
  }

  lemma {:induction false} OthersKept(fs: seq<(Name, Data)>, k: nat)
    requires k < |fs| && Sendable(fs)
    ensures fs[k].0 !in ToMap(fs[..k])
  {
    hide Fits;
    ToMapHas(fs[..k]);
  }

  lemma {:induction false} SessionSplit(fs: seq<(Name, Data)>)
    requires fs != [] && forall i :: 0 <= i < |fs| ==> Fits(fs[i])
    ensures Session(fs) == FileMessage(fs[0]) + Session(fs[1..])
  {
    hide FileMessage, Fits;
  }

  lemma {:induction false} MessagesSplit(fs: seq<(Name, Data)>, k: nat)
    requires 0 < k <= |fs| && forall i :: 0 <= i < |fs| ==> Fits(fs[i])
    ensures |Messages(fs[..k])| == |FileMessage(fs[0])| + |Messages(fs[1..][..k - 1])|
  {
    hide FileMessage, Fits;
    assert fs[..k][1..] == fs[1..][..k - 1];
  }

  /** The first `c` bytes after the messages of the first `k` files have come as well. */
  function Upto(fs: seq<(Name, Data)>, k: nat, c: nat): seq<UChar>
    requires k <= |fs| && forall i :: 0 <= i < |fs| ==> Fits(fs[i])
  {
    var n := |Messages(fs[..k])| + c;
    if n <= |Session(fs)| then Session(fs)[..n] else Session(fs)
  }

  lemma {:induction false} UptoFirst(fs: seq<(Name, Data)>, c: nat)
    requires fs != [] && (forall i :: 0 <= i < |fs| ==> Fits(fs[i])) && c < |FileMessage(fs[0])|
    ensures Upto(fs, 0, c) == FileMessage(fs[0])[..c]
  {
    SessionSplit(fs);
    assert Messages(fs[..0]) == [];
    hide FileMessage, Fits, Session, Messages;
  }

  lemma {:induction false} UptoLater(fs: seq<(Name, Data)>, k: nat, c: nat)
    requires 0 < k <= |fs| && forall i :: 0 <= i < |fs| ==> Fits(fs[i])
    ensures Upto(fs, k, c) == FileMessage(fs[0]) + Upto(fs[1..], k - 1, c)
  {
    SessionSplit(fs);
    MessagesSplit(fs, k);
    hide FileMessage, Fits, Session, Messages;
  }

  /** A transfer that breaks `c` bytes into the message of file `k` leaves the files before complete,
      file `k` cut as soon as its name has come, and all others as they were. */
  lemma {:induction false} BrokenTransfer(dir: Dir, fs: seq<(Name, Data)>, k: nat, c: nat)
    requires Sendable(fs) && k < |fs| && c < |FileMessage(fs[k])|
    ensures Receive(dir, Upto(fs, k, c)) == Broken(Cut(dir + ToMap(fs[..k]), fs[k], c))
    decreases k
  {
    hide *;
    SendableRest(fs);
    if k == 0 {
      NothingBefore(dir, fs);
      UptoFirst(fs, c);
      MessageCut(dir, fs[0], c);
    } else {
      UptoLater(fs, k, c);
      FirstFileMore(dir, fs, k);
      BrokenTransfer(dir[fs[0].0 := fs[0].1], fs[1..], k - 1, c);
      MessageReceived(dir, fs[0], Upto(fs[1..], k - 1, c));
    }
  }

  lemma {:induction false} NothingBefore(dir: Dir, fs: seq<(Name, Data)>)
    ensures dir + ToMap(fs[..0]) == dir
  {}

  /** One that breaks in the end mark leaves all files complete. */
  lemma {:induction false} BrokenEnd(dir: Dir, fs: seq<(Name, Data)>, c: nat)
    requires Sendable(fs) && c < |EOF|
    ensures Receive(dir, Upto(fs, |fs|, c)) == Broken(dir + ToMap(fs))
    decreases |fs|
  {
    if fs == [] {
      assert dir + ToMap(fs) == dir && Upto(fs, 0, c) == EOF[..c];
    } else {
      assert fs[..|fs|] == fs && fs[1..][..|fs| - 1] == fs[1..];
      hide *;
      SendableRest(fs);
      UptoLater(fs, |fs|, c);
      FirstFileMore(dir, fs, |fs|);
      BrokenEnd(dir[fs[0].0 := fs[0].1], fs[1..], c);
      MessageReceived(dir, fs[0], Upto(fs[1..], |fs| - 1, c));
    }
  }

  /** Wherever a transfer breaks, it is inside the message of one of the files, or in the end mark. */
  lemma {:induction false} EveryCut(fs: seq<(Name, Data)>, at: nat) returns (k: nat, c: nat)
    requires Sendable(fs) && at < |Session(fs)|
    ensures k <= |fs| && c < (if k < |fs| then |FileMessage(fs[k])| else |EOF|)
    ensures Session(fs)[..at] == Upto(fs, k, c)
    decreases |fs|
  {
    if fs == [] {
      k, c := 0, at;
    } else {
      SendableRest(fs);
      SessionSplit(fs);
      hide *;
      var msg := FileMessage(fs[0]);
      if at < |msg| {
        k, c := 0, at;
        UptoFirst(fs, c);
        assert Session(fs)[..at] == msg[..at];
      } else {
        k, c := EveryCut(fs[1..], at - |msg|);
        k := k + 1;
        UptoLater(fs, k, c);
        assert Session(fs)[..at] == msg + Session(fs[1..])[..at - |msg|];
      }
    }
  }

  /** The old file is lost exactly if the break comes after the name, even if it was the very file
      that is being sent. */
  lemma {:induction false} OldFileLost(dir: Dir, fs: seq<(Name, Data)>, k: nat, c: nat)
    requires Sendable(fs) && k < |fs| && c < |FileMessage(fs[k])|
    requires fs[k].0 in dir && dir[fs[k].0] == fs[k].1
    ensures var (name, data) := fs[k]; var r := Receive(dir, Upto(fs, k, c));
      r.Broken? && name in r.files && (r.files[name] != data <==> c >= 8 + |name|)
  {
    BrokenTransfer(dir, fs, k, c);
    OthersKept(fs, k);
    hide Receive, FileMessage, Fits, Session, Messages, Sendable, Upto, ToMap;
  }

  // ----- the loops

  /** Copies a file through the buffer. */
  method CopyThroughBuffer(data: Data) returns (copy: Data)
    ensures copy == data
  {
    copy := [];
    var fileLen := |data|;
    while fileLen > 0
      invariant 0 <= fileLen <= |data| && copy == data[..|data| - fileLen]
    {
      var rwLen := if CP_BUF_SIZE < fileLen then CP_BUF_SIZE else fileLen;
      var at := |data| - fileLen;
      var buf := data[at..at + rwLen];
      copy := copy + buf;
      fileLen := fileLen - rwLen;
    }
  }

  /** One more file, whichever the directory yields next. */
  method SendFile(name: Name, data: Data) returns (msg: seq<UChar>)
    requires Fits((name, data))
    ensures msg == FileMessage((name, data))
  {
    msg := SET + [|name| as UChar] + LittleEndian(|data|, 4) + name;
    var copy := CopyThroughBuffer(data);
    msg := msg + copy;
  }

  /** `wire` holds every file of a directory once, in some order, and the end. */
  ghost predicate Sends(wire: seq<UChar>, files: Dir) {
    exists fs :: Enumerates(fs, files) && (forall i :: 0 <= i < |fs| ==> Fits(fs[i])) && wire == Session(fs)
  }

  /** Sends all files of a directory. Whoever receives them, and whatever is sent after them: they
      override the receiver's files of the same names. */
  method SendFiles(files: Dir) returns (wire: seq<UChar>)
    requires forall n :: n in files ==> Fits((n, files[n]))
    ensures Sends(wire, files)
    ensures forall dir, rest :: Receive(dir, wire + rest) == Finished(dir + files, rest)
  {
    hide Fits, Enumerates, Messages, Session, Receive;
    wire := [];
    ghost var fs := [];
    var todo := files.Keys;
    NothingListed(files);
    while todo != {}
      invariant todo <= files.Keys && Enumerates(fs, files - todo)
      invariant (forall i :: 0 <= i < |fs| ==> Fits(fs[i])) && wire == Messages(fs)
      decreases todo
    {
      var name :| name in todo;
      var msg := SendFile(name, files[name]);
      MessagesGrow(fs, (name, files[name]));
      OneMoreListed(fs, files, todo, name);
      wire := wire + msg;
      fs := fs + [(name, files[name])];
      todo := todo - {name};
    }
    assert files - {} == files;
    wire := wire + EOF;
    assert wire == Session(fs) by { SessionIs(fs); }
    forall dir, rest ensures Receive(dir, wire + rest) == Finished(dir + files, rest) {
      TransferOverrides(dir, files, fs, rest);
    }
  }

  lemma {:induction false} SessionIs(fs: seq<(Name, Data)>)
    requires forall i :: 0 <= i < |fs| ==> Fits(fs[i])
    ensures Session(fs) == Messages(fs) + EOF
  {}

  lemma {:induction false} NothingListed(files: Dir)
    ensures Enumerates([], files - files.Keys) && Messages([]) == []
  {}

  lemma {:induction false} OneMoreListed(fs: seq<(Name, Data)>, files: Dir, todo: set<Name>, name: Name)
    requires Enumerates(fs, files - todo) && name in todo && name in files
    ensures Enumerates(fs + [(name, files[name])], files - (todo - {name}))
  {
    var r, m := fs + [(name, files[name])], files - (todo - {name});
    forall n | n in m ensures exists i :: 0 <= i < |r| && r[i].0 == n {
      if n == name {
        assert r[|fs|].0 == n;
      } else {
        assert n in files - todo;
        var i :| 0 <= i < |fs| && fs[i].0 == n;
        assert r[i].0 == n;
      }
    }
  }

  lemma {:induction false} MessagesGrow(fs: seq<(Name, Data)>, f: (Name, Data))
    requires Fits(f) && forall i :: 0 <= i < |fs| ==> Fits(fs[i])
    ensures (forall i :: 0 <= i < |fs + [f]| ==> Fits((fs + [f])[i]))
    ensures Messages(fs + [f]) == Messages(fs) + FileMessage(f)
    decreases |fs|
  {
    hide FileMessage, Fits;
    if fs == [] {
      assert fs + [f] == [f] && [f][1..] == [];
    } else {
      assert (fs + [f])[1..] == fs[1..] + [f];
      MessagesGrow(fs[1..], f);
    }
  }

  /** Receives `len` bytes and writes them as they come, one buffer after the other. */
  method ReceiveFile(wire: seq<UChar>, len: nat) returns (data: Data)
    ensures data == if |wire| < len then wire[..Written(|wire|)] else wire[..len]
  {
    data := [];
    var fileLen := len;
    while fileLen > 0
      invariant 0 <= fileLen <= len && |data| == len - fileLen <= |wire| && data == wire[..|data|]
      invariant fileLen > 0 ==> |data| % CP_BUF_SIZE == 0
    {
      var rwLen := if CP_BUF_SIZE < fileLen then CP_BUF_SIZE else fileLen;
      if |wire| - |data| < rwLen { return; }
      data := data + wire[|data|..|data| + rwLen];
      fileLen := fileLen - rwLen;
    }
  }

  /** The receiving end, which writes each file as it comes. */
  method ReceiveFiles(dir: Dir, wire: seq<UChar>) returns (r: Outcome)
    ensures r == Receive(dir, wire)
  {
    hide FromLittleEndian, Written;
    var files, s := dir, wire;
    while true
      invariant Receive(dir, wire) == Receive(files, s)
      decreases |s|
    {
      if |s| < 3 { return Broken(files); }
      if s[..3] == SET {
        if |s| < 8 { return Broken(files); }
        var n := s[3] as nat;
        var m := FromLittleEndian(s[4..8]);
        if |s| < 8 + n { return Broken(files); }
        var data := ReceiveFile(s[8 + n..], m);
        assert data == s[8 + n..8 + n + |data|];
        files := files[s[8..8 + n] := data];
        if |data| < m { return Broken(files); }
        s := s[8 + n + m..];
      } else if s[..3] == EOF {
        return Finished(files, s[3..]);
      } else {
        return Broken(files);
      }
    }
  }
}
