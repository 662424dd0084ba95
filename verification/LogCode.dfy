/** The loops of kernel/log.c as code: log_write's absorption scan, write_log,
    install_trans, commit and recover_from_log, run by the one process that
    commits or recovers. Each bwrite leaves a disk image; the contracts speak
    about every image on the way, since a crash can expose any of them. */
module LogCode {
  import opened Common
  import opened WriteAheadLog

  ghost predicate ImageRecoversTo(c: Config, image: seq<Data>, d: seq<Data>) {
    ValidConfig(c) && WellSized(c, image) && |d| == |c.image| && RecoversTo(c, image, d)
  }

  ghost predicate AllRecover(c: Config, ds: seq<seq<Data>>, d: seq<Data>) {
    forall i :: 0 <= i < |ds| ==> ImageRecoversTo(c, ds[i], d)
  }

  lemma NoneRecover(c: Config, d: seq<Data>)
    ensures AllRecover(c, [], d)
  {
  }

  lemma OneMoreRecovers(c: Config, ds: seq<seq<Data>>, x: seq<Data>, d: seq<Data>)
    requires AllRecover(c, ds, d) && ValidConfig(c) && WellSized(c, x) && |d| == |c.image| && RecoversTo(c, x, d)
    ensures AllRecover(c, ds + [x], d)
  {
    hide RecoversTo;
  }

  lemma Assoc(xs: seq<seq<Data>>, ys: seq<seq<Data>>, z: seq<Data>)
    ensures xs + ys + [z] == xs + (ys + [z])
  {
  }

  /** install_trans after tail blocks, from the disk d0 and the images im0. */
  ghost predicate Installing(c: Config, d0: seq<Data>, disk: seq<Data>, lh: seq<int>, tail: nat,
                             im0: seq<seq<Data>>, images: seq<seq<Data>>, d: seq<Data>)
  {
    && ValidConfig(c) && WellSized(c, d0) && WellSized(c, disk) && LegalHeader(c, lh) && tail <= |lh| &&
       |d| == |c.image|
    && Logged(c, disk, disk, lh, tail) && RecoversTo(c, disk, d) && disk == HomeDisk(c, d0, lh, tail)
    && images == im0 + HomeDisks(c, d0, lh, tail) && AllRecover(c, HomeDisks(c, d0, lh, tail), d)
  }

  lemma InstallingStart(c: Config, disk: seq<Data>, lh: seq<int>, images: seq<seq<Data>>, d: seq<Data>)
    requires ValidConfig(c) && WellSized(c, disk) && LegalHeader(c, lh) && |d| == |c.image| && RecoversTo(c, disk, d)
    ensures Installing(c, disk, disk, lh, 0, images, images, d)
  {
    hide RecoversTo;
    assert images + [] == images;
  }

  lemma InstallingFacts(c: Config, d0: seq<Data>, disk: seq<Data>, lh: seq<int>, tail: nat,
                        im0: seq<seq<Data>>, images: seq<seq<Data>>, d: seq<Data>)
    requires Installing(c, d0, disk, lh, tail, im0, images, d)
    ensures ValidConfig(c) && WellSized(c, d0) && LegalHeader(c, lh) && tail <= |lh| && |disk| == |c.image| == |d|
    ensures Logged(c, disk, disk, lh, tail) && RecoversTo(c, disk, d) && disk == HomeDisk(c, d0, lh, tail)
    ensures images == im0 + HomeDisks(c, d0, lh, tail) && AllRecover(c, HomeDisks(c, d0, lh, tail), d)
  {
    hide RecoversTo, Logged, AllRecover, HomeDisk, HomeDisks;
  }

  lemma InstallingNext(c: Config, d0: seq<Data>, d1: seq<Data>, d2: seq<Data>, lh: seq<int>, tail: nat,
                       im0: seq<seq<Data>>, im1: seq<seq<Data>>, d: seq<Data>)
    requires Installing(c, d0, d1, lh, tail, im0, im1, d) && tail < |lh| && WellSized(c, d2)
    requires 0 <= lh[tail] < |d1| && c.logStart + tail + 1 < |d1| && d2 == d1[lh[tail] := d1[c.logStart + tail + 1]]
    requires Logged(c, d2, d2, lh, tail + 1) && RecoversTo(c, d2, d)
    ensures Installing(c, d0, d2, lh, tail + 1, im0, im1 + [d2], d)
  {
    hide RecoversTo, Logged, AllRecover, HomeDisk, HomeDisks;
    OneMoreRecovers(c, HomeDisks(c, d0, lh, tail), d2, d);
    HomeNext(c, d0, lh, tail);
    Assoc(im0, HomeDisks(c, d0, lh, tail), d2);
  }

  /** The images of commit, in the order written. */
  lemma Join(c: Config, im: seq<seq<Data>>, ds: seq<seq<Data>>, x: seq<Data>, es: seq<seq<Data>>, y: seq<Data>,
             d: seq<Data>, e: seq<Data>)
    requires AllRecover(c, ds, d) && ImageRecoversTo(c, x, e) && AllRecover(c, es, e) && ImageRecoversTo(c, y, e)
    ensures im + ds + [x] + es + [y] == im + (ds + [x] + es + [y])
    ensures forall i :: |im| <= i < |im| + |ds| + |es| + 2 ==>
              ImageRecoversTo(c, (im + ds + [x] + es + [y])[i], if i < |im| + |ds| then d else e)
  {
    hide ImageRecoversTo;
  }

  class Log {
    const c: Config
    var disk: seq<Data>
    var view: seq<Data>                // what bread returns for home blocks
    var lh: seq<int>                   // log.lh.block[0 .. log.lh.n]
    var pins: multiset<int>            // bpin and bunpin of home blocks
    ghost var images: seq<seq<Data>>   // the disk after each bwrite so far

    constructor (c: Config)
      requires ValidConfig(c)
      ensures this.c == c && disk == view == c.image && lh == [] && images == [] && pins == multiset{}
    {
      this.c := c;
      disk, view, lh, images, pins := c.image, c.image, [], [], multiset{};
    }

    ghost predicate Valid()
      reads this
    {
      && ValidConfig(c) && WellSized(c, disk) && WellSized(c, view)
      && LegalHeader(c, lh)
    }

    method Bwrite(b: int, d: Data)
      requires Valid() && 0 <= b < |disk| && |d| == c.words
      modifies this`disk, this`images
      ensures Valid() && disk == old(disk)[b := d] && images == old(images) + [disk]
    {
      disk := disk[b := d];
      images := images + [disk];
    }

    /** The part of log_write under log.lock: scan for absorption, then record
        the block. The buffer is pinned exactly when the block is new. */
    method LogWrite(b: int) returns (pinned: bool)
      requires Valid() && Home(c, b) && |lh| < c.logSize && |lh| < c.nlog - 1
      modifies this`lh, this`pins
      ensures Valid() && pinned == (b !in old(lh))
      ensures lh == if pinned then old(lh) + [b] else old(lh)
      ensures pins == if pinned then old(pins) + multiset{b} else old(pins)
    {
      var i := 0;
      while i < |lh|
        invariant 0 <= i <= |lh| && b !in lh[..i]
      {
        if lh[i] == b {
          break;
        }
        i := i + 1;
      }
      if i == |lh| {
        LegalAppend(c, lh, b);
        lh := lh + [b];
        pins := pins + multiset{b};
        pinned := true;
      } else {
        lh := lh[i := b];
        pinned := false;
      }
    }

    /** write_head, writing the in-memory header into the block it read. */
    method WriteHead()
      requires Valid() && |lh| + 1 <= c.words
      modifies this`disk, this`images
      ensures Valid() && images == old(images) + [disk]
      ensures disk == old(disk)[c.logStart := WriteHeader(old(disk)[c.logStart], lh)]
      ensures disk[c.logStart][0] == |lh| && forall i :: 0 <= i < |lh| ==> disk[c.logStart][i + 1] == lh[i]
    {
      var hb := disk[c.logStart];
      var i := 0;
      hb := hb[0 := |lh|];
      while i < |lh|
        invariant 0 <= i <= |lh| && |hb| == c.words
        invariant hb == [|lh|] + lh[..i] + old(disk)[c.logStart][i + 1..]
      {
        hb := hb[i + 1 := lh[i]];
        i := i + 1;
      }
      assert lh[..|lh|] == lh;
      assert hb == WriteHeader(disk[c.logStart], lh);
      Bwrite(c.logStart, hb);
    }

    /** read_head */
    method ReadHead()
      requires Valid() && LegalHeader(c, ReadHeader(disk[c.logStart]))
      modifies this`lh
      ensures Valid() && lh == ReadHeader(disk[c.logStart])
      ensures var d := disk[c.logStart];
              if 0 < d[0] < |d| then |lh| == d[0] && forall i :: 0 <= i < |lh| ==> lh[i] == d[i + 1] else lh == []
    {
      var hb := disk[c.logStart];
      lh := [];
      if 0 < hb[0] < |hb| {
        var i := 0;
        while i < hb[0]
          invariant 0 <= i <= hb[0] && lh == hb[1..i + 1]
        {
          lh := lh + [hb[i + 1]];
          i := i + 1;
        }
      }
    }

    /** write_log: as long as the old header stands, what is written to the log
        blocks does not matter to recovery. */
    method WriteLog()
      requires Valid() && ReadHeader(disk[c.logStart]) == []
      modifies this`disk, this`images
      ensures Valid() && ReadHeader(disk[c.logStart]) == [] && Logged(c, disk, view, lh, |lh|)
      ensures SameHome(c, disk, old(disk)) && disk == CopyDisk(c, old(disk), view, lh, |lh|)
      ensures var ds := CopyDisks(c, old(disk), view, lh, |lh|);
              images == old(images) + ds && AllRecover(c, ds, old(disk))
    {
      hide ReadHeader, RecoveredAt, AllRecover;
      var tail := 0;
      NoneRecover(c, old(disk));
      while tail < |lh|
        invariant 0 <= tail <= |lh| && Valid() && ReadHeader(disk[c.logStart]) == []
        invariant Logged(c, disk, view, lh, tail) && SameHome(c, disk, old(disk))
        invariant disk == CopyDisk(c, old(disk), view, lh, tail)
        invariant var ds := CopyDisks(c, old(disk), view, lh, tail);
                  images == old(images) + ds && AllRecover(c, ds, old(disk))
      {
        ghost var before := disk;
        assert Home(c, lh[tail]);
        Bwrite(c.logStart + tail + 1, view[lh[tail]]);
        EmptyHeaderRecovers(c, disk, old(disk));
        OneMoreRecovers(c, CopyDisks(c, old(disk), view, lh, tail), disk, old(disk));
        assert disk[c.logStart] == before[c.logStart];
        tail := tail + 1;
      }
    }

    /** install_trans. Unless recovering, each block is unpinned once it is home. */
    method InstallTrans(recovering: bool, ghost d: seq<Data>)
      requires Valid() && (!recovering ==> multiset(lh) <= pins)
      requires ReadHeader(disk[c.logStart]) == lh && |d| == |c.image| && RecoversTo(c, disk, d)
      modifies this`disk, this`view, this`images, this`pins
      ensures Valid() && ReadHeader(disk[c.logStart]) == lh
      ensures pins == if recovering then old(pins) else old(pins) - multiset(lh)
      ensures Logged(c, disk, disk, lh, |lh|) && SameHome(c, disk, d) && disk == HomeDisk(c, old(disk), lh, |lh|)
      ensures ViewKept(c, old(view), old(disk), view, disk, d)
      ensures var ds := HomeDisks(c, old(disk), lh, |lh|); images == old(images) + ds && AllRecover(c, ds, d)
    {
      hide ReadHeader, RecoveredAt, Unpinned, RecoversTo, AllRecover, HomeDisk, HomeDisks, Logged, SameHome, Installing;
      var tail := 0;
      UnpinEnds(pins, lh);
      InstallingStart(c, disk, lh, images, d);
      while tail < |lh|
        invariant 0 <= tail <= |lh| && Valid() && ReadHeader(disk[c.logStart]) == lh
        invariant Installing(c, old(disk), disk, lh, tail, old(images), images, d)
        invariant ViewKept(c, old(view), old(disk), view, disk, d)
        invariant pins == if recovering then old(pins) else Unpinned(old(pins), lh, tail)
      {
        ghost var d0, im0 := disk, images;
        InstallingFacts(c, old(disk), disk, lh, tail, old(images), images, d);
        InstallOne(tail, recovering, d);
        InstallingNext(c, old(disk), d0, disk, lh, tail, old(images), im0, d);
        UnpinOne(old(pins), lh, tail);
        tail := tail + 1;
      }
      InstallingFacts(c, old(disk), disk, lh, tail, old(images), images, d);
      AllInstalled(c, disk, lh, d);
    }

    /** One turn of install_trans's loop. */
    method InstallOne(tail: nat, recovering: bool, ghost d: seq<Data>)
      requires Valid() && ReadHeader(disk[c.logStart]) == lh && |d| == |c.image| && RecoversTo(c, disk, d)
      requires tail < |lh| && Logged(c, disk, disk, lh, tail)
      modifies this`disk, this`view, this`images, this`pins
      ensures Valid() && ReadHeader(disk[c.logStart]) == lh && images == old(images) + [disk]
      ensures disk == old(disk)[lh[tail] := old(disk)[c.logStart + tail + 1]]
      ensures Logged(c, disk, disk, lh, tail + 1) && RecoversTo(c, disk, d)
      ensures ViewKept(c, old(view), old(disk), view, disk, d)
      ensures pins == if recovering then old(pins) else old(pins) - multiset{lh[tail]}
    {
      hide ReadHeader, RecoveredAt, RecoversTo, Logged, SameHome;
      var lbuf := disk[c.logStart + tail + 1];
      InstallStep(c, disk, lh, tail, d);
      Bwrite(lh[tail], lbuf);
      ViewInstalled(c, view, old(disk), d, lh[tail], lbuf);
      view := view[lh[tail] := lbuf];
      if !recovering {
        pins := pins - multiset{lh[tail]};
      }
    }

    /** commit. A crash exposes one of the images, which are the disks that the
        log machine leaves: those of write_log recover to the contents before
        the transaction, all later ones to the contents with the whole
        transaction. */
    method Commit()
      requires Valid() && ReadHeader(disk[c.logStart]) == [] && CleanElsewhere(c, disk, view, lh) &&
               pins == multiset(lh)
      modifies this
      ensures Valid() && lh == [] && ReadHeader(disk[c.logStart]) == [] && pins == multiset{}
      ensures SameHome(c, disk, old(view)) && SameHome(c, view, old(view))
      ensures images == old(images) + (if old(lh) == [] then [] else CommitDisks(c, old(disk), old(view), old(lh)))
      ensures |images| == |old(images)| + (if old(lh) == [] then 0 else 2 * |old(lh)| + 2)
      ensures forall i :: |old(images)| <= i < |images| ==>
                ImageRecoversTo(c, images[i], if i < |old(images)| + |old(lh)| then old(disk) else old(view))
    {
      hide ReadHeader, RecoveredAt, WriteHeader, CopyDisk, CopyDisks, HomeDisk, HomeDisks, AllRecover, Logged;
      hide RecoversTo;
      hide ImageRecoversTo, SameHome, CleanElsewhere;
      CleanFacts(c, disk, view, lh);
      if |lh| > 0 {
        WriteLog();
        CleanKept(c, old(disk), disk, view, lh);
        ghost var ds, mid := CopyDisks(c, old(disk), view, lh, |lh|), disk;
        WriteHead();
        HeaderRecovers(c, mid, view, lh);
        ghost var headed := disk;
        InstallTrans(false, view);
        ghost var es, home := HomeDisks(c, headed, old(lh), |lh|), disk;
        lh := [];
        WriteHead();
        ClearRecovers(c, home, old(lh), old(view));
        Join(c, old(images), ds, headed, es, disk, old(disk), old(view));
      }
    }

    /** recover_from_log, from any disk with a legal header. The home blocks end
        up as RecoveredAt says, on disk and for readers, and a crash at any
        write of the recovery itself exposes a disk that recovers to the same
        contents. Nothing is unpinned. */
    method RecoverFromLog()
      requires Valid() && LegalHeader(c, ReadHeader(disk[c.logStart])) && SameHome(c, view, disk)
      modifies this
      ensures Valid() && lh == [] && ReadHeader(disk[c.logStart]) == []
      ensures SameHome(c, view, disk) && pins == old(pins)
      ensures forall b :: Home(c, b) ==> disk[b] == RecoveredAt(c, old(disk), b)
      ensures images == old(images) + RecoverDisks(c, old(disk)) && disk == images[|images| - 1]
      ensures forall i :: |old(images)| <= i < |images| ==> ImageRecoversTo(c, images[i], disk)
    {
      hide ReadHeader, RecoveredAt, HomeDisk, HomeDisks, WriteHeader;
      ghost var d := seq(|disk|, b requires 0 <= b < |disk| && ValidConfig(c) && |disk| == |c.image| reads this =>
        if Home(c, b) then RecoveredAt(c, disk, b) else disk[b]);
      ReadHead();
      InstallTrans(true, d);
      ghost var logged, was := disk, lh;
      lh := [];
      WriteHead();
      HeaderIsNotHome(c, view, logged, disk[c.logStart]);
      ClearRecovers(c, logged, was, d);
      Assoc(old(images), HomeDisks(c, old(disk), was, |was|), disk);
    }
  }

  function Unpinned(pins: multiset<int>, lh: seq<int>, i: nat): multiset<int>
    requires i <= |lh|
  {
    pins - multiset(lh[..i])
  }

  lemma UnpinOne(pins: multiset<int>, lh: seq<int>, i: nat)
    requires i < |lh|
    ensures Unpinned(pins, lh, i + 1) == Unpinned(pins, lh, i) - multiset{lh[i]}
  {
    assert lh[..i + 1] == lh[..i] + [lh[i]];
  }

  lemma UnpinEnds(pins: multiset<int>, lh: seq<int>)
    ensures Unpinned(pins, lh, 0) == pins && Unpinned(pins, lh, |lh|) == pins - multiset(lh)
  {
    assert lh[..0] == [] && lh[..|lh|] == lh;
  }

  // ----- the images as the machine's disks

  /** The disk after i blocks have been copied to the log. */
  function CopyDisk(c: Config, disk: seq<Data>, view: seq<Data>, lh: seq<int>, i: nat): (d: seq<Data>)
    requires i <= |lh| && i <= c.nlog - 1 && c.logStart + c.nlog <= |disk|
    requires forall j :: 0 <= j < |lh| ==> 0 <= lh[j] < |view|
    ensures |d| == |disk|
  {
    if i == 0 then disk else CopyDisk(c, disk, view, lh, i - 1)[c.logStart + i := view[lh[i - 1]]]
  }

  /** The disk after i blocks have been installed. */
  function HomeDisk(c: Config, disk: seq<Data>, lh: seq<int>, i: nat): (d: seq<Data>)
    requires i <= |lh| && i <= c.nlog - 1 && c.logStart + c.nlog <= |disk|
    requires forall j :: 0 <= j < |lh| ==> 0 <= lh[j] < |disk|
    ensures |d| == |disk|
  {
    if i == 0 then disk
    else
      var e := HomeDisk(c, disk, lh, i - 1);
      e[lh[i - 1] := e[c.logStart + i]]
  }

  /** The disks after the first, the second, ... the i-th of those writes. */
  function CopyDisks(c: Config, disk: seq<Data>, view: seq<Data>, lh: seq<int>, i: nat): (ds: seq<seq<Data>>)
    requires i <= |lh| && i <= c.nlog - 1 && c.logStart + c.nlog <= |disk|
    requires forall j :: 0 <= j < |lh| ==> 0 <= lh[j] < |view|
    ensures |ds| == i
  {
    if i == 0 then [] else CopyDisks(c, disk, view, lh, i - 1) + [CopyDisk(c, disk, view, lh, i)]
  }

  function HomeDisks(c: Config, disk: seq<Data>, lh: seq<int>, i: nat): (ds: seq<seq<Data>>)
    requires i <= |lh| && i <= c.nlog - 1 && c.logStart + c.nlog <= |disk|
    requires forall j :: 0 <= j < |lh| ==> 0 <= lh[j] < |disk|
    ensures |ds| == i
  {
    if i == 0 then [] else HomeDisks(c, disk, lh, i - 1) + [HomeDisk(c, disk, lh, i)]
  }

  lemma HomeNext(c: Config, disk: seq<Data>, lh: seq<int>, i: nat)
    requires i < |lh| && i + 1 <= c.nlog - 1 && c.logStart + c.nlog <= |disk|
    requires forall j :: 0 <= j < |lh| ==> 0 <= lh[j] < |disk|
    ensures HomeDisk(c, disk, lh, i + 1) ==
            HomeDisk(c, disk, lh, i)[lh[i] := HomeDisk(c, disk, lh, i)[c.logStart + i + 1]]
    ensures HomeDisks(c, disk, lh, i + 1) == HomeDisks(c, disk, lh, i) + [HomeDisk(c, disk, lh, i + 1)]
  {
  }

  function WithHeader(c: Config, disk: seq<Data>, lh: seq<int>): (d: seq<Data>)
    requires c.logStart < |disk| && |lh| + 1 <= |disk[c.logStart]|
    ensures |d| == |disk|
  {
    disk[c.logStart := WriteHeader(disk[c.logStart], lh)]
  }

  lemma HeaderStays(c: Config, disk: seq<Data>, view: seq<Data>, lh: seq<int>, i: nat)
    requires ValidConfig(c) && WellSized(c, disk) && WellSized(c, view) && LegalHeader(c, lh) && i <= |lh|
    ensures CopyDisk(c, disk, view, lh, i)[c.logStart] == disk[c.logStart] &&
            HomeDisk(c, disk, lh, i)[c.logStart] == disk[c.logStart]
    ensures WellSized(c, CopyDisk(c, disk, view, lh, i)) && WellSized(c, HomeDisk(c, disk, lh, i))
  {
    if i > 0 {
      HeaderStays(c, disk, view, lh, i - 1);
    }
  }

  /** The disks that commit leaves, one per bwrite. */
  ghost function CommitDisks(c: Config, disk: seq<Data>, view: seq<Data>, lh: seq<int>): (ds: seq<seq<Data>>)
    requires ValidConfig(c) && WellSized(c, disk) && WellSized(c, view) && LegalHeader(c, lh)
    ensures |ds| == 2 * |lh| + 2
  {
    var n := |lh|;
    HeaderStays(c, disk, view, lh, n);
    var copied := CopyDisk(c, disk, view, lh, n);
    var headed := WithHeader(c, copied, lh);
    HeaderStays(c, headed, view, lh, n);
    var home := HomeDisk(c, headed, lh, n);
    CopyDisks(c, disk, view, lh, n) + [headed] + HomeDisks(c, headed, lh, n) + [WithHeader(c, home, [])]
  }

  /** The disks that recovery leaves, one per bwrite. */
  ghost function RecoverDisks(c: Config, disk: seq<Data>): (ds: seq<seq<Data>>)
    requires ValidConfig(c) && WellSized(c, disk) && LegalHeader(c, ReadHeader(disk[c.logStart]))
    ensures |ds| == |ReadHeader(disk[c.logStart])| + 1
  {
    var lh := ReadHeader(disk[c.logStart]);
    HeaderStays(c, disk, disk, lh, |lh|);
    HomeDisks(c, disk, lh, |lh|) + [WithHeader(c, HomeDisk(c, disk, lh, |lh|), [])]
  }

  /** A run of the log machine from any state. */
  ghost predicate Trace(c: Config, ss: seq<State>, sts: seq<Step>) {
    |ss| == |sts| + 1 && forall i :: 0 <= i < |sts| ==> IsStep(c, ss[i], sts[i], ss[i + 1])
  }

  function Last(ss: seq<State>): State
    requires |ss| > 0
  {
    ss[|ss| - 1]
  }

  /** The disks after each step. */
  function DisksOf(ss: seq<State>): (ds: seq<seq<Data>>)
    requires |ss| > 0
    ensures |ds| == |ss| - 1
  {
    if |ss| == 1 then [] else DisksOf(ss[..|ss| - 1]) + [Last(ss).disk]
  }

  lemma TraceOn(c: Config, ss: seq<State>, sts: seq<Step>, st: Step)
    requires Trace(c, ss, sts) && Content(c, Last(ss)) && Enabled(c, Last(ss), st)
    ensures ValidConfig(c) && Sizes(c, Last(ss))
    ensures var t := Next(c, Last(ss), st);
            && Trace(c, ss + [t], sts + [st]) && Content(c, t) && Last(ss + [t]) == t
            && DisksOf(ss + [t]) == DisksOf(ss) + [t.disk]
  {
    hide Content, Next, Enabled;
    ContentParts(c, Last(ss));
    var t := Next(c, Last(ss), st);
    ContentKept(c, Last(ss), st);
    var ts, us := ss + [t], sts + [st];
    assert ts[..|ss|] == ss;
    forall i | 0 <= i < |us| ensures IsStep(c, ts[i], us[i], ts[i + 1]) {
      if i < |sts| {
        assert IsStep(c, ss[i], sts[i], ss[i + 1]);
      }
    }
  }

  function Repeat(st: Step, n: nat): seq<Step> {
    if n == 0 then [] else Repeat(st, n - 1) + [st]
  }

  /** i blocks are copied to the log. */
  lemma {:induction false} Copies(c: Config, s: State, i: nat) returns (ss: seq<State>)
    requires Content(c, s) && s.phase == LogCopy(0) && i <= |s.lh|
    ensures |ss| > 0 && ss[0] == s && Trace(c, ss, Repeat(CopyBlock, i)) && Content(c, Last(ss))
    ensures var t := Last(ss); t.phase == LogCopy(i) && t.lh == s.lh && t.view == s.view
    ensures ValidConfig(c) && WellSized(c, s.disk) && WellSized(c, s.view) && LegalHeader(c, s.lh)
    ensures Last(ss).disk == CopyDisk(c, s.disk, s.view, s.lh, i)
    ensures DisksOf(ss) == CopyDisks(c, s.disk, s.view, s.lh, i)
  {
    hide Content, ReadHeader;
    ContentParts(c, s);
    if i == 0 {
      ss := [s];
    } else {
      var rs := Copies(c, s, i - 1);
      TraceOn(c, rs, Repeat(CopyBlock, i - 1), CopyBlock);
      ss := rs + [Next(c, Last(rs), CopyBlock)];
    }
  }

  /** i blocks are installed. */
  lemma {:induction false} Installs(c: Config, s: State, i: nat) returns (ss: seq<State>)
    requires Content(c, s) && s.phase == Install(0) && i <= |s.lh|
    ensures |ss| > 0 && ss[0] == s && Trace(c, ss, Repeat(InstallBlock, i)) && Content(c, Last(ss))
    ensures Last(ss).phase == Install(i) && Last(ss).lh == s.lh
    ensures ValidConfig(c) && WellSized(c, s.disk) && LegalHeader(c, s.lh)
    ensures Last(ss).disk == HomeDisk(c, s.disk, s.lh, i) && DisksOf(ss) == HomeDisks(c, s.disk, s.lh, i)
  {
    hide Content, ReadHeader;
    ContentParts(c, s);
    if i == 0 {
      ss := [s];
    } else {
      var rs := Installs(c, s, i - 1);
      TraceOn(c, rs, Repeat(InstallBlock, i - 1), InstallBlock);
      ss := rs + [Next(c, Last(rs), InstallBlock)];
    }
  }

  lemma TraceJoin(c: Config, ss: seq<State>, sts: seq<Step>, ts: seq<State>, us: seq<Step>)
    requires Trace(c, ss, sts) && Trace(c, ts, us) && Last(ss) == ts[0]
    ensures Trace(c, ss + ts[1..], sts + us) && Last(ss + ts[1..]) == Last(ts)
    ensures DisksOf(ss + ts[1..]) == DisksOf(ss) + DisksOf(ts)
  {
    hide IsStep;
    var rs, vs, n := ss + ts[1..], sts + us, |sts|;
    forall i | 0 <= i < |vs| ensures IsStep(c, rs[i], vs[i], rs[i + 1]) {
      if i < n {
        assert IsStep(c, ss[i], sts[i], ss[i + 1]);
      } else {
        var j := i - n;
        assert IsStep(c, ts[j], us[j], ts[j + 1]);
        assert rs[i] == ts[j] && rs[i + 1] == ts[j + 1];
      }
    }
    DisksJoin(ss, ts);
  }

  lemma {:induction false} DisksJoin(ss: seq<State>, ts: seq<State>)
    requires |ss| > 0 && |ts| > 0
    ensures DisksOf(ss + ts[1..]) == DisksOf(ss) + DisksOf(ts)
    decreases |ts|
  {
    var rs, n := ss + ts[1..], |ts| - 1;
    if n == 0 {
      assert rs == ss;
    } else {
      DisksJoin(ss, ts[..n]);
      assert rs[..|rs| - 1] == ss + ts[..n][1..];
    }
  }

  /** The steps of a commit of n blocks. */
  function CommitSteps(n: nat): seq<Step> {
    Repeat(CopyBlock, n) + [WriteHead] + Repeat(InstallBlock, n) + [ClearHead]
  }

  /** The images of Commit are the disks of the log machine's own steps, from
      any state that has just begun to commit. */
  lemma CommitRuns(c: Config, s: State) returns (ss: seq<State>)
    requires Content(c, s) && s.phase == LogCopy(0)
    ensures |ss| > 0 && ss[0] == s && Trace(c, ss, CommitSteps(|s.lh|)) && Last(ss).phase == Finishing
    ensures ValidConfig(c) && WellSized(c, s.disk) && WellSized(c, s.view) && LegalHeader(c, s.lh)
    ensures DisksOf(ss) == CommitDisks(c, s.disk, s.view, s.lh)
  {
    hide Content, ReadHeader, CopyDisk, CopyDisks, HomeDisk, HomeDisks, WriteHeader;
    var n := |s.lh|;
    ContentParts(c, s);
    var cs := Copies(c, s, n);
    TraceOn(c, cs, Repeat(CopyBlock, n), WriteHead);
    var h := Next(c, Last(cs), WriteHead);
    var ts := Installs(c, h, n);
    TraceJoin(c, cs + [h], Repeat(CopyBlock, n) + [WriteHead], ts, Repeat(InstallBlock, n));
    var rs := cs + [h] + ts[1..];
    TraceOn(c, rs, Repeat(CopyBlock, n) + [WriteHead] + Repeat(InstallBlock, n), ClearHead);
    ss := rs + [Next(c, Last(rs), ClearHead)];
  }

  /** i blocks are installed by recovery. */
  lemma {:induction false} RecInstalls(c: Config, s: State, i: nat) returns (ss: seq<State>)
    requires Content(c, s) && s.phase == RecInstall(0) && i <= |s.lh|
    ensures |ss| > 0 && ss[0] == s && Trace(c, ss, Repeat(RecInstallBlock, i)) && Content(c, Last(ss))
    ensures Last(ss).phase == RecInstall(i) && Last(ss).lh == s.lh
    ensures ValidConfig(c) && WellSized(c, s.disk) && LegalHeader(c, s.lh)
    ensures Last(ss).disk == HomeDisk(c, s.disk, s.lh, i) && DisksOf(ss) == HomeDisks(c, s.disk, s.lh, i)
  {
    hide Content, ReadHeader;
    ContentParts(c, s);
    if i == 0 {
      ss := [s];
    } else {
      var rs := RecInstalls(c, s, i - 1);
      TraceOn(c, rs, Repeat(RecInstallBlock, i - 1), RecInstallBlock);
      ss := rs + [Next(c, Last(rs), RecInstallBlock)];
    }
  }

  lemma ReadsHead(c: Config, s: State) returns (h: State)
    requires Content(c, s) && s.phase == Booting
    ensures ValidConfig(c) && Sizes(c, s)
    ensures Trace(c, [s, h], [ReadHead]) && Content(c, h) && DisksOf([s, h]) == [s.disk] && h.disk == s.disk
    ensures h.phase == RecInstall(0) && h.lh == ReadHeader(s.disk[c.logStart])
  {
    hide Content, ReadHeader;
    ContentParts(c, s);
    TraceOn(c, [s], [], ReadHead);
    h := Next(c, s, ReadHead);
    assert [s] + [h] == [s, h] && [] + [ReadHead] == [ReadHead];
    assert DisksOf([s]) == [];
  }

  /** The steps of a recovery of n blocks. */
  function RecoverSteps(n: nat): seq<Step> {
    [ReadHead] + Repeat(RecInstallBlock, n) + [RecClearHead]
  }

  /** The images of RecoverFromLog are the disks of the log machine's own steps,
      from any state after a crash; reading the header writes nothing. */
  lemma RecoverRuns(c: Config, s: State) returns (ss: seq<State>)
    requires Content(c, s) && s.phase == Booting
    ensures ValidConfig(c) && WellSized(c, s.disk) && LegalHeader(c, ReadHeader(s.disk[c.logStart]))
    ensures |ss| > 0 && ss[0] == s && Trace(c, ss, RecoverSteps(|ReadHeader(s.disk[c.logStart])|))
    ensures Last(ss).phase == Running && DisksOf(ss) == [s.disk] + RecoverDisks(c, s.disk)
  {
    hide Content, ReadHeader, HomeDisk, HomeDisks, WriteHeader, Trace, DisksOf, LegalHeader;
    ContentParts(c, s);
    var lh := ReadHeader(s.disk[c.logStart]);
    var h := ReadsHead(c, s);
    var ts := RecInstalls(c, h, |lh|);
    TraceJoin(c, [s, h], [ReadHead], ts, Repeat(RecInstallBlock, |lh|));
    var rs := [s, h] + ts[1..];
    TraceOn(c, rs, [ReadHead] + Repeat(RecInstallBlock, |lh|), RecClearHead);
    ss := rs + [Next(c, Last(rs), RecClearHead)];
  }

  lemma CleanFacts(c: Config, disk: seq<Data>, view: seq<Data>, lh: seq<int>)
    requires CleanElsewhere(c, disk, view, lh) && ValidConfig(c)
    ensures SameHome(c, view, view) && (lh == [] ==> SameHome(c, disk, view))
  {
  }

  lemma CleanKept(c: Config, d0: seq<Data>, d1: seq<Data>, view: seq<Data>, lh: seq<int>)
    requires CleanElsewhere(c, d0, view, lh) && SameHome(c, d1, d0)
    ensures CleanElsewhere(c, d1, view, lh)
  {
  }

  /** Where readers saw the contents d, or those on disk, they still do. */
  ghost predicate ViewKept(c: Config, v0: seq<Data>, d0: seq<Data>, v1: seq<Data>, d1: seq<Data>, d: seq<Data>) {
    (SameHome(c, v0, d) ==> SameHome(c, v1, d)) && (SameHome(c, v0, d0) ==> SameHome(c, v1, d1))
  }

  lemma ViewInstalled(c: Config, view: seq<Data>, disk: seq<Data>, d: seq<Data>, b: int, x: Data)
    requires 0 <= b < |view| == |disk| == |d| && x == d[b]
    ensures ViewKept(c, view, disk, view[b := x], disk[b := x], d)
  {
  }

  lemma HeaderIsNotHome(c: Config, view: seq<Data>, disk: seq<Data>, x: Data)
    requires ValidConfig(c) && SameHome(c, view, disk)
    ensures SameHome(c, view, disk[c.logStart := x])
  {
  }

  lemma EmptyHeaderRecovers(c: Config, disk: seq<Data>, d: seq<Data>)
    requires ValidConfig(c) && WellSized(c, disk) && ReadHeader(disk[c.logStart]) == [] && SameHome(c, disk, d)
    ensures RecoversTo(c, disk, d)
  {
    hide ReadHeader;
  }

  lemma InstallStep(c: Config, disk: seq<Data>, lh: seq<int>, t: nat, d: seq<Data>)
    requires ValidConfig(c) && WellSized(c, disk) && LegalHeader(c, lh) && t < |lh| && |d| == |c.image|
    requires ReadHeader(disk[c.logStart]) == lh && RecoversTo(c, disk, d) && Logged(c, disk, disk, lh, t)
    ensures Home(c, lh[t]) && disk[c.logStart + 1 + t] == d[lh[t]]
    ensures var e := disk[lh[t] := disk[c.logStart + 1 + t]];
            RecoversTo(c, e, d) && Logged(c, e, e, lh, t + 1) && e[c.logStart] == disk[c.logStart]
  {
    hide ReadHeader;
    IndexUnique(lh, t);
    assert RecoveredAt(c, disk, lh[t]) == d[lh[t]];
    var e := disk[lh[t] := disk[c.logStart + 1 + t]];
    hide RecoveredAt;
    forall b | Home(c, b) ensures RecoveredAt(c, e, b) == d[b] {
      InstallIdempotent(c, disk, lh, t, b);
    }
    assert forall i :: 0 <= i < t ==> lh[i] != lh[t] && Home(c, lh[i]);
  }

  lemma AllInstalled(c: Config, disk: seq<Data>, lh: seq<int>, d: seq<Data>)
    requires ValidConfig(c) && WellSized(c, disk) && LegalHeader(c, lh) && |d| == |c.image|
    requires ReadHeader(disk[c.logStart]) == lh && RecoversTo(c, disk, d) && Logged(c, disk, disk, lh, |lh|)
    ensures SameHome(c, disk, d)
  {
    hide ReadHeader, RecoveredAt;
    forall b | Home(c, b) ensures disk[b] == d[b] {
      ClearIdempotent(c, disk, disk, lh, b);
    }
  }

  lemma HeaderRecovers(c: Config, disk: seq<Data>, view: seq<Data>, lh: seq<int>)
    requires ValidConfig(c) && WellSized(c, disk)
    requires Logged(c, disk, view, lh, |lh|) && CleanElsewhere(c, disk, view, lh)
    ensures RecoversTo(c, disk[c.logStart := WriteHeader(disk[c.logStart], lh)], view)
    ensures ImageRecoversTo(c, disk[c.logStart := WriteHeader(disk[c.logStart], lh)], view)
  {
    hide ReadHeader, RecoveredAt, WriteHeader;
    forall b | Home(c, b)
      ensures RecoveredAt(c, disk[c.logStart := WriteHeader(disk[c.logStart], lh)], b) == view[b] {
      HeaderCommits(c, disk, view, lh, b);
    }
  }

  lemma ClearRecovers(c: Config, disk: seq<Data>, lh: seq<int>, d: seq<Data>)
    requires ValidConfig(c) && WellSized(c, disk) && ReadHeader(disk[c.logStart]) == lh
    requires Logged(c, disk, disk, lh, |lh|) && SameHome(c, disk, d)
    ensures var e := disk[c.logStart := WriteHeader(disk[c.logStart], [])];
            RecoversTo(c, e, d) && SameHome(c, e, d) && ImageRecoversTo(c, e, d)
  {
    hide ReadHeader, RecoveredAt, WriteHeader;
    forall b | Home(c, b)
      ensures RecoveredAt(c, disk[c.logStart := WriteHeader(disk[c.logStart], [])], b) == d[b] {
      ClearIdempotent(c, disk, disk, lh, b);
    }
  }
}
