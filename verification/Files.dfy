/** File tables across fork and exit: copy_files takes one reference per table entry it
    copies, close_files drops one per open bit. */
module FileTables {
  import opened TaskModel

  /** Bits per word, and the sizes of a new files_struct. */
  const BITS := 32
  const NR_OPEN_DEFAULT := 32
  const FD_SETSIZE := 1024

  const ENOMEM := 12

  /** The address of a struct file. */
  type Fid = nat

  type Fds = seq<Option<Fid>>

  function Bit(w: nat, t: nat): bool { if t == 0 then w % 2 == 1 else Bit(w / 2, t - 1) }

  function Pow2(n: nat): (p: nat)
    ensures p >= 1
  {
    if n == 0 then 1 else 2 * Pow2(n - 1)
  }

  /** FD_ISSET; a descriptor beyond the words is not open. */
  predicate Open(words: seq<nat>, i: nat) { i / BITS < |words| && Bit(words[i / BITS], i % BITS) }

  lemma {:induction false} NonzeroBit(w: nat, n: nat) returns (t: nat)
    requires 0 < w < Pow2(n)
    ensures t < n && Bit(w, t)
  {
    if w % 2 == 1 {
      t := 0;
    } else {
      var u := NonzeroBit(w / 2, n - 1);
      t := u + 1;
    }
  }

  lemma {:induction false} ZeroBits(t: nat)
    ensures !Bit(0, t)
  {
    if t > 0 { ZeroBits(t - 1); }
  }

  /** How often f occurs among the first k entries. */
  function Refs(fds: Fds, f: Fid, k: nat): nat
    requires k <= |fds|
  {
    if k == 0 then 0 else Refs(fds, f, k - 1) + (if fds[k - 1] == Some(f) then 1 else 0)
  }

  /** ... and how often with its open bit set. */
  function OpenRefs(fds: Fds, words: seq<nat>, f: Fid, k: nat): (n: nat)
    requires k <= |fds|
    ensures n <= Refs(fds, f, k)
  {
    if k == 0 then 0
    else OpenRefs(fds, words, f, k - 1) + (if fds[k - 1] == Some(f) && Open(words, k - 1) then 1 else 0)
  }

  /** struct file's reference counts. */
  class Counts {
    var count: map<Fid, nat>

    constructor (count: map<Fid, nat>)
      ensures this.count == count
    {
      this.count := count;
    }

    /** get_file */
    method Get(f: Fid)
      requires f in count
      modifies this
      ensures count == old(count)[f := old(count)[f] + 1]
    {
      count := count[f := count[f] + 1];
    }

    /** filp_close, as far as the reference count goes. */
    method Put(f: Fid)
      requires f in count && count[f] > 0
      modifies this
      ensures count == old(count)[f := old(count)[f] - 1]
    {
      count := count[f := count[f] - 1];
    }
  }

  /** files_struct */
  class Files {
    var count: nat
    const fd: array<Option<Fid>>          // max_fds entries
    const openFds: array<nat>             // max_fdset bits
    const closeOnExec: array<nat>

    /** kmem_cache_alloc and the expansions: nothing is cleared yet. */
    constructor (maxFds: nat, words: nat)
      ensures count == 1 && fresh(fd) && fresh(openFds) && fresh(closeOnExec)
      ensures fd.Length == maxFds && openFds.Length == closeOnExec.Length == words && openFds != closeOnExec
    {
      count := 1;
      fd := new Option<Fid>[maxFds];
      openFds := new nat[words];
      closeOnExec := new nat[words];
    }

    /** Tables come in whole words, and no descriptor is open beyond the table. */
    ghost predicate Valid()
      reads this, openFds
    {
      && openFds != closeOnExec && closeOnExec.Length == openFds.Length
      && fd.Length % BITS == 0 && fd.Length >= NR_OPEN_DEFAULT && BITS * openFds.Length >= FD_SETSIZE
      && (forall j :: 0 <= j < openFds.Length ==> openFds[j] < Pow2(BITS))
      && (forall i :: fd.Length <= i < BITS * openFds.Length ==> !Open(openFds[..], i))
    }
  }

  /** count_open_files */
  method CountOpenFiles(files: Files) returns (n: nat)
    requires files.Valid()
    ensures n % BITS == 0 && NR_OPEN_DEFAULT <= n <= files.fd.Length && n <= BITS * files.openFds.Length
    ensures forall i: nat :: Open(files.openFds[..], i) ==> i < n
    ensures n > BITS ==> files.openFds[n / BITS - 1] != 0
  {
    var i := files.openFds.Length;
    while i > 0
      invariant 0 <= i <= files.openFds.Length
      invariant forall j :: i <= j < files.openFds.Length ==> files.openFds[j] == 0
    {
      i := i - 1;
      if files.openFds[i] != 0 {
        break;
      }
    }
    n := (i + 1) * BITS;
    LastWord(files, i);
  }

  lemma LastWord(files: Files, i: nat)
    requires files.Valid() && i < files.openFds.Length && (i > 0 ==> files.openFds[i] != 0)
    requires forall j :: i < j < files.openFds.Length ==> files.openFds[j] == 0
    ensures (i + 1) * BITS <= files.fd.Length
    ensures forall k: nat :: Open(files.openFds[..], k) ==> k < (i + 1) * BITS
  {
    if i > 0 {
      var t := NonzeroBit(files.openFds[i], BITS);
      OpenAt(files.openFds[..], i, t);
      RoundUp(files.fd.Length, i, t);
    }
    forall k: nat | Open(files.openFds[..], k) ensures k < (i + 1) * BITS {
      if k / BITS > i { ZeroBits(k % BITS); }
    }
  }

  // ---- fork -----------------------------------------------------------------------------------

  /** What expand_fdset and expand_fd_array return. */
  datatype Grow = Grown(size: nat) | Failed(error: int)

  /** The table of the child: the parent's entries below n and NULL above, and the parent's
      open set, all of which lies below n. */
  ghost predicate Copied(fds: Fds, open: seq<nat>, exec: seq<nat>, n: nat,
                         fds': Fds, open': seq<nat>, exec': seq<nat>) {
    && n <= |fds| && n <= |fds'|
    && (forall i :: 0 <= i < n ==> fds'[i] == fds[i])
    && (forall i :: n <= i < |fds'| ==> fds'[i] == None)
    && (forall i: nat :: Open(open, i) ==> i < n)
    && (forall i: nat :: Open(open', i) <==> Open(open, i))
    && (forall i: nat :: Open(exec', i) <==> i < n && Open(exec, i))
  }

  ghost predicate Known(fds: Fds, count: map<Fid, nat>) {
    forall i :: 0 <= i < |fds| && fds[i].Some? ==> fds[i].value in count
  }

  /** Each file has one more reference for each of the first n entries that name it. */
  ghost predicate Taken(fds: Fds, n: nat, was: map<Fid, nat>, now: map<Fid, nat>) {
    n <= |fds| && now.Keys == was.Keys && forall f :: f in was ==> now[f] == was[f] + Refs(fds, f, n)
  }

  /** copy_files. `memory` says whether the files_struct could be allocated, `fdset` and
      `fdArray` what growing its bitmaps (in words) and its table would return. */
  method CopyFiles(files: Files?, share: bool, counts: Counts, memory: bool, fdset: Grow, fdArray: Grow)
    returns (error: int, child: Files?, ghost n: nat)
    requires files != null ==> files.Valid() && Known(files.fd[..], counts.count)
    requires files != null && fdset.Grown? ==> fdset.size >= files.openFds.Length
    requires files != null && fdArray.Grown? ==>
               fdArray.size % BITS == 0 && forall i: nat :: Open(files.openFds[..], i) ==> i < fdArray.size
    requires (fdset.Failed? ==> fdset.error < 0) && (fdArray.Failed? ==> fdArray.error < 0)
    modifies counts, files
    ensures files == null ==> error == 0 && child == null && counts.count == old(counts.count)
    ensures files != null && share ==>
              error == 0 && child == files && counts.count == old(counts.count) && files.count == old(files.count) + 1
    ensures files != null && !share ==> files.count == old(files.count)
    ensures error != 0 ==> error < 0 && child == null && counts.count == old(counts.count)
    ensures files != null && !share && !memory ==> error == -ENOMEM
    ensures files != null && !share && error == 0 ==>
              && child != null && fresh(child) && fresh(child.fd) && child.count == 1 && child.Valid()
              && Copied(old(files.fd[..]), old(files.openFds[..]), old(files.closeOnExec[..]), n,
                        child.fd[..], child.openFds[..], child.closeOnExec[..])
              && Taken(old(files.fd[..]), n, old(counts.count), counts.count)
    ensures files != null && !share && memory && fdset.Grown? && fdArray.Grown? ==> error == 0
  {
    error, child, n := 0, null, 0;
    if files == null {
      return;
    }
    if share {
      files.count := files.count + 1;
      child := files;
      return;
    }
    if !memory {
      error := -ENOMEM;
      return;
    }
    var words := FD_SETSIZE / BITS;
    if BITS * files.openFds.Length > FD_SETSIZE {
      if fdset.Failed? {
        error := fdset.error;
        return;
      }
      words := fdset.size;
    }
    var openFiles := CountOpenFiles(files);
    var maxFds := NR_OPEN_DEFAULT;
    if openFiles > maxFds {
      if fdArray.Failed? {
        error := fdArray.error;
        return;
      }
      maxFds := fdArray.size;
      BoundaryFits(files, openFiles, maxFds);
    }
    n := openFiles;
    child := Duplicate(files, counts, openFiles, maxFds, words);
  }

  /** The part of copy_files that fills in the child's tables. */
  method Duplicate(files: Files, counts: Counts, n: nat, maxFds: nat, words: nat) returns (child: Files)
    requires files.Valid() && Known(files.fd[..], counts.count) && n % BITS == 0 && n <= files.fd.Length
    requires n <= BITS * files.openFds.Length && forall i: nat :: Open(files.openFds[..], i) ==> i < n
    requires maxFds % BITS == 0 && maxFds >= NR_OPEN_DEFAULT && n <= maxFds
    requires files.openFds.Length <= words && BITS * words >= FD_SETSIZE
    modifies counts
    ensures fresh(child) && fresh(child.fd) && child.count == 1 && child.Valid()
    ensures Copied(files.fd[..], files.openFds[..], files.closeOnExec[..], n,
                   child.fd[..], child.openFds[..], child.closeOnExec[..])
    ensures Taken(files.fd[..], n, old(counts.count), counts.count)
  {
    hide Known, Taken, Open;
    child := new Files(maxFds, words);
    CopyBits(files, child, n);
    CopyTable(files, child, counts, n);
    BitsCopied(files.openFds[..], child.openFds[..], n);
    BitsCopied(files.closeOnExec[..], child.closeOnExec[..], n);
  }

  lemma BitsCopied(words: seq<nat>, copy: seq<nat>, n: nat)
    requires n % BITS == 0 && n <= BITS * |words| && n <= BITS * |copy|
    requires forall j :: 0 <= j < |copy| ==> copy[j] == if j < n / BITS then words[j] else 0
    ensures forall i: nat :: Open(copy, i) <==> i < n && Open(words, i)
    ensures (forall j :: 0 <= j < |words| ==> words[j] < Pow2(BITS)) ==>
              forall j :: 0 <= j < |copy| ==> copy[j] < Pow2(BITS)
  {
    forall i: nat ensures Open(copy, i) <==> i < n && Open(words, i) {
      if i / BITS < |copy| && i >= n { ZeroBits(i % BITS); }
    }
  }

  /** The boundary is the end of the word of the last open descriptor. */
  lemma BoundaryFits(files: Files, n: nat, size: nat)
    requires files.Valid() && n % BITS == 0 && BITS < n <= BITS * files.openFds.Length
    requires files.openFds[n / BITS - 1] != 0
    requires size % BITS == 0 && forall i: nat :: Open(files.openFds[..], i) ==> i < size
    ensures n <= size
  {
    var j := n / BITS - 1;
    var t := NonzeroBit(files.openFds[j], BITS);
    OpenAt(files.openFds[..], j, t);
    RoundUp(size, j, t);
  }

  lemma RoundUp(size: nat, j: nat, t: nat)
    requires size % BITS == 0 && BITS * j + t < size
    ensures BITS * (j + 1) <= size
  {
  }

  /** The two memcpy calls and the memset calls on the bitmaps. */
  method CopyBits(files: Files, child: Files, n: nat)
    requires files.Valid() && child != files && n % BITS == 0 && n <= BITS * files.openFds.Length
    requires child.openFds != child.closeOnExec && child.openFds.Length == child.closeOnExec.Length
    requires {child.openFds, child.closeOnExec} !! {files.openFds, files.closeOnExec}
    requires n <= BITS * child.openFds.Length
    modifies child.openFds, child.closeOnExec
    ensures forall j :: 0 <= j < child.openFds.Length ==>
              && child.openFds[j] == (if j < n / BITS then files.openFds[j] else 0)
              && child.closeOnExec[j] == (if j < n / BITS then files.closeOnExec[j] else 0)
  {
    forall j | 0 <= j < n / BITS {
      child.openFds[j] := files.openFds[j];
    }
    forall j | 0 <= j < n / BITS {
      child.closeOnExec[j] := files.closeOnExec[j];
    }
    forall j | n / BITS <= j < child.openFds.Length {
      child.openFds[j] := 0;
    }
    forall j | n / BITS <= j < child.openFds.Length {
      child.closeOnExec[j] := 0;
    }
  }

  /** The loop that copies the table and takes the references, and the final memset. */
  method CopyTable(files: Files, child: Files, counts: Counts, n: nat)
    requires child.fd != files.fd && n <= files.fd.Length && n <= child.fd.Length && Known(files.fd[..], counts.count)
    modifies child.fd, counts
    ensures forall i :: 0 <= i < n ==> child.fd[i] == files.fd[i]
    ensures forall i :: n <= i < child.fd.Length ==> child.fd[i] == None
    ensures Taken(files.fd[..], n, old(counts.count), counts.count)
  {
    ghost var fds := files.fd[..];
    var i := n;
    var k := 0;
    while i != 0
      invariant 0 <= i <= n && k == n - i && files.fd[..] == fds
      invariant forall j :: 0 <= j < k ==> child.fd[j] == files.fd[j]
      invariant Taken(fds, k, old(counts.count), counts.count)
    {
      var f := files.fd[k];
      if f.Some? {
        counts.Get(f.value);
      }
      child.fd[k] := f;
      k := k + 1;
      i := i - 1;
    }
    forall j | n <= j < child.fd.Length {
      child.fd[j] := None;
    }
    assert files.fd[..] == fds;
  }

  // ---- exit -------------------------------------------------------------------------------------

  /** Each file has lost one reference for each open entry below k that names it. */
  ghost predicate Dropped(fds: Fds, words: seq<nat>, k: nat, was: map<Fid, nat>, now: map<Fid, nat>) {
    k <= |fds| && now.Keys == was.Keys && forall f :: f in was ==> now[f] == was[f] - OpenRefs(fds, words, f, k)
  }

  /** Every open entry holds a reference. */
  ghost predicate Backed(fds: Fds, words: seq<nat>, count: map<Fid, nat>) {
    Known(fds, count) && forall f :: f in count ==> OpenRefs(fds, words, f, |fds|) <= count[f]
  }

  lemma {:induction false} OpenRefsMono(fds: Fds, words: seq<nat>, f: Fid, j: nat, k: nat)
    requires j <= k <= |fds|
    ensures OpenRefs(fds, words, f, j) <= OpenRefs(fds, words, f, k)
    ensures (forall i :: j <= i < k ==> !Open(words, i)) ==> OpenRefs(fds, words, f, j) == OpenRefs(fds, words, f, k)
    decreases k
  {
    if j < k { OpenRefsMono(fds, words, f, j, k - 1); }
  }

  /** One more entry is closed; the reference it holds is there to drop. */
  lemma DropStep(fds: Fds, words: seq<nat>, k: nat, was: map<Fid, nat>, now: map<Fid, nat>)
    requires Dropped(fds, words, k, was, now) && Backed(fds, words, was) && k < |fds|
    ensures fds[k].Some? && Open(words, k) ==>
              && fds[k].value in now && now[fds[k].value] > 0
              && Dropped(fds, words, k + 1, was, now[fds[k].value := now[fds[k].value] - 1])
    ensures !(fds[k].Some? && Open(words, k)) ==> Dropped(fds, words, k + 1, was, now)
  {
    if fds[k].Some? && Open(words, k) {
      OpenRefsMono(fds, words, fds[k].value, k + 1, |fds|);
    }
  }

  /** Entries that are not open may be passed over. */
  lemma SkipClosed(fds: Fds, words: seq<nat>, j: nat, k: nat, was: map<Fid, nat>, now: map<Fid, nat>)
    requires Dropped(fds, words, j, was, now) && j <= k <= |fds| && forall i :: j <= i < k ==> !Open(words, i)
    ensures Dropped(fds, words, k, was, now)
  {
    forall f | f in was { OpenRefsMono(fds, words, f, j, k); }
  }

  /** A word shifted right t times. */
  function Shift(w: nat, t: nat): nat { if t == 0 then w else Shift(w, t - 1) / 2 }

  lemma {:induction false} ShiftBit(w: nat, t: nat, u: nat)
    ensures Bit(w, t + u) == Bit(Shift(w, t), u)
  {
    if t > 0 { ShiftBit(w, t - 1, u + 1); }
  }

  lemma {:induction false} ShiftSmall(w: nat, t: nat, n: nat)
    requires w < Pow2(n) && t <= n
    ensures Shift(w, t) < Pow2(n - t)
  {
    if t > 0 { ShiftSmall(w, t - 1, n); }
  }

  lemma OpenAt(words: seq<nat>, j: nat, u: nat)
    requires j < |words| && u < BITS
    ensures Open(words, BITS * j + u) == Bit(words[j], u)
  {
  }

  /** The lowest bit of the shifted word is the next descriptor's. */
  lemma ShiftNext(words: seq<nat>, j: nat, t: nat)
    requires j < |words| && words[j] < Pow2(BITS) && t <= BITS && Shift(words[j], t) != 0
    ensures t < BITS && (Shift(words[j], t) % 2 == 1 <==> Open(words, BITS * j + t))
  {
    ShiftSmall(words[j], t, BITS);
    ShiftBit(words[j], t, 0);
    OpenAt(words, j, t);
  }

  lemma ShiftDone(words: seq<nat>, j: nat, t: nat)
    requires j < |words| && t <= BITS && Shift(words[j], t) == 0
    ensures forall i :: BITS * j + t <= i < BITS * (j + 1) ==> !Open(words, i)
  {
    forall i | BITS * j + t <= i < BITS * (j + 1) ensures !Open(words, i) {
      var u := i - BITS * j;
      ShiftBit(words[j], t, u - t);
      ZeroBits(u - t);
      OpenAt(words, j, u);
    }
  }

  /** The table after the open entries below k have been cleared. */
  ghost predicate Cleared(fds: Fds, words: seq<nat>, k: nat, now: Fds) {
    && |now| == |fds|
    && forall i :: 0 <= i < |fds| ==> now[i] == if i < k && Open(words, i) then None else fds[i]
  }

  lemma ClearStep(fds: Fds, words: seq<nat>, k: nat, now: Fds)
    requires Cleared(fds, words, k, now) && k < |fds|
    ensures now[k] == fds[k]
    ensures Cleared(fds, words, k + 1, if Open(words, k) then now[k := None] else now)
  {
  }

  lemma ClearSkip(fds: Fds, words: seq<nat>, j: nat, k: nat, now: Fds)
    requires Cleared(fds, words, j, now) && j <= k && forall i :: j <= i < k ==> !Open(words, i)
    ensures Cleared(fds, words, k, now)
  {
  }

  /** The inner loop of close_files: the open descriptors of one word. */
  method CloseWord(files: Files, counts: Counts, j: nat, ghost fds: Fds, ghost was: map<Fid, nat>)
    requires files.Valid() && j < files.openFds.Length && BITS * (j + 1) <= files.fd.Length == |fds|
    requires Backed(fds, files.openFds[..], was)
    requires Dropped(fds, files.openFds[..], BITS * j, was, counts.count)
    requires Cleared(fds, files.openFds[..], BITS * j, files.fd[..])
    modifies files.fd, counts
    ensures Dropped(fds, files.openFds[..], BITS * (j + 1), was, counts.count)
    ensures Cleared(fds, files.openFds[..], BITS * (j + 1), files.fd[..])
  {
    hide Backed, Dropped, Cleared, Bit, Open, Pow2;
    ghost var words := files.openFds[..];
    var i, bits := BITS * j, files.openFds[j];
    while bits != 0
      invariant BITS * j <= i <= BITS * (j + 1) && bits == Shift(words[j], i - BITS * j)
      invariant Dropped(fds, words, i, was, counts.count) && Cleared(fds, words, i, files.fd[..])
    {
      ShiftNext(words, j, i - BITS * j);
      DropStep(fds, words, i, was, counts.count);
      ClearStep(fds, words, i, files.fd[..]);
      if bits % 2 == 1 {
        var file := files.fd[i];
        files.fd[i] := None;
        if file.Some? {
          counts.Put(file.value);
        }
      }
      i := i + 1;
      bits := bits / 2;
    }
    ShiftDone(words, j, i - BITS * j);
    SkipClosed(fds, words, i, BITS * (j + 1), was, counts.count);
    ClearSkip(fds, words, i, BITS * (j + 1), files.fd[..]);
  }

  lemma NothingYet(fds: Fds, words: seq<nat>, count: map<Fid, nat>)
    ensures Dropped(fds, words, 0, count, count) && Cleared(fds, words, 0, fds)
  {
  }

  lemma BeyondWords(words: seq<nat>, k: nat)
    requires k >= BITS * |words|
    ensures forall i :: i >= k ==> !Open(words, i)
  {
  }

  /** close_files */
  method CloseFiles(files: Files, counts: Counts)
    requires files.Valid() && Backed(files.fd[..], files.openFds[..], counts.count)
    modifies files.fd, counts
    ensures Dropped(old(files.fd[..]), files.openFds[..], files.fd.Length, old(counts.count), counts.count)
    ensures Cleared(old(files.fd[..]), files.openFds[..], files.fd.Length, files.fd[..])
  {
    hide Backed, Dropped, Cleared, Bit, Open, Pow2, Known;
    ghost var fds, words := files.fd[..], files.openFds[..];
    NothingYet(fds, words, counts.count);
    var j := 0;
    while true
      invariant 0 <= j <= files.openFds.Length && BITS * j <= files.fd.Length && files.openFds[..] == words
      invariant Dropped(fds, words, BITS * j, old(counts.count), counts.count)
      invariant Cleared(fds, words, BITS * j, files.fd[..])
      decreases files.openFds.Length - j
    {
      var i := j * BITS;
      if i >= BITS * files.openFds.Length || i >= files.fd.Length {
        break;
      }
      CloseWord(files, counts, j, fds, old(counts.count));
      j := j + 1;
    }
    if BITS * j >= BITS * |words| { BeyondWords(words, BITS * j); }
    SkipClosed(fds, words, BITS * j, |fds|, old(counts.count), counts.count);
    ClearSkip(fds, words, BITS * j, |fds|, files.fd[..]);
  }

  /** put_files_struct */
  method PutFiles(files: Files, counts: Counts)
    requires files.Valid() && files.count > 0 && Backed(files.fd[..], files.openFds[..], counts.count)
    modifies files, files.fd, counts
    ensures files.count == old(files.count) - 1
    ensures files.count > 0 ==> counts.count == old(counts.count) && files.fd[..] == old(files.fd[..])
    ensures files.count == 0 ==>
              && Dropped(old(files.fd[..]), files.openFds[..], files.fd.Length, old(counts.count), counts.count)
              && Cleared(old(files.fd[..]), files.openFds[..], files.fd.Length, files.fd[..])
  {
    files.count := files.count - 1;
    if files.count == 0 {
      CloseFiles(files, counts);
    }
  }

  // ---- fork, then exit ----------------------------------------------------------------------------

  lemma {:induction false} AllOpen(fds: Fds, words: seq<nat>, f: Fid, k: nat)
    requires k <= |fds|
    ensures OpenRefs(fds, words, f, k) == Refs(fds, f, k)
            <==> forall i :: 0 <= i < k && fds[i] == Some(f) ==> Open(words, i)
  {
    if k > 0 { AllOpen(fds, words, f, k - 1); }
  }

  lemma {:induction false} SameRefs(fds: Fds, words: seq<nat>, fds': Fds, words': seq<nat>, f: Fid, k: nat)
    requires k <= |fds| && k <= |fds'|
    requires forall i :: 0 <= i < k ==> fds[i] == fds'[i] && (Open(words, i) <==> Open(words', i))
    ensures OpenRefs(fds, words, f, k) == OpenRefs(fds', words', f, k)
  {
    if k > 0 { SameRefs(fds, words, fds', words', f, k - 1); }
  }

  /** The references a copied table takes can all be dropped by closing it. */
  lemma ChildBacked(fds: Fds, open: seq<nat>, exec: seq<nat>, n: nat, fds': Fds, open': seq<nat>, exec': seq<nat>,
                    was: map<Fid, nat>, forked: map<Fid, nat>)
    requires Copied(fds, open, exec, n, fds', open', exec') && Taken(fds, n, was, forked) && Known(fds, was)
    ensures Backed(fds', open', forked)
  {
    forall f | f in forked ensures OpenRefs(fds', open', f, |fds'|) <= forked[f] {
      OpenRefsMono(fds', open', f, n, |fds'|);
      SameRefs(fds, open, fds', open', f, n);
    }
  }

  /** A fork that copies the table and an exit that closes the copy leave every reference
      count as it was, if and only if every file in the copied part of the table had its
      open bit set. */
  lemma ForkExitNeutral(fds: Fds, open: seq<nat>, exec: seq<nat>, n: nat, fds': Fds, open': seq<nat>, exec': seq<nat>,
                        was: map<Fid, nat>, forked: map<Fid, nat>, now: map<Fid, nat>)
    requires Copied(fds, open, exec, n, fds', open', exec') && Taken(fds, n, was, forked) && Known(fds, was)
    requires Dropped(fds', open', |fds'|, forked, now)
    ensures now == was <==> forall i :: 0 <= i < n && fds[i].Some? ==> Open(open, i)
  {
    forall f | f in was
      ensures now[f] == was[f] <==> forall i :: 0 <= i < n && fds[i] == Some(f) ==> Open(open, i)
    {
      OpenRefsMono(fds', open', f, n, |fds'|);
      SameRefs(fds, open, fds', open', f, n);
      AllOpen(fds, open, f, n);
    }
    if now == was {
      forall i | 0 <= i < n && fds[i].Some? ensures Open(open, i) { assert fds[i].value in was; }
    }
  }

  /** A fork that copies the table, and the exit of the child as the copy's only user: every
      reference count is what it was if and only if every file in the copied part had its
      open bit set. */
  method ForkThenExit(files: Files, counts: Counts, memory: bool, fdset: Grow, fdArray: Grow)
    returns (error: int, ghost n: nat)
    requires files.Valid() && Known(files.fd[..], counts.count)
    requires fdset.Grown? ==> fdset.size >= files.openFds.Length
    requires fdArray.Grown? ==>
               fdArray.size % BITS == 0 && forall i: nat :: Open(files.openFds[..], i) ==> i < fdArray.size
    requires (fdset.Failed? ==> fdset.error < 0) && (fdArray.Failed? ==> fdArray.error < 0)
    modifies counts, files
    ensures error != 0 ==> counts.count == old(counts.count)
    ensures error == 0 ==>
              && (forall i: nat :: Open(files.openFds[..], i) ==> i < n) && n <= files.fd.Length
              && (counts.count == old(counts.count) <==>
                    forall i :: 0 <= i < n && files.fd[i].Some? ==> Open(files.openFds[..], i))
  {
    hide Open, Copied, Taken, Known, Dropped, Backed, Cleared, Pow2;
    ghost var fds, open, exec, was := files.fd[..], files.openFds[..], files.closeOnExec[..], counts.count;
    var child;
    error, child, n := CopyFiles(files, false, counts, memory, fdset, fdArray);
    if error == 0 {
      ghost var forked, fds', open', exec' := counts.count, child.fd[..], child.openFds[..], child.closeOnExec[..];
      ChildBacked(fds, open, exec, n, fds', open', exec', was, forked);
      PutFiles(child, counts);
      ForkExitNeutral(fds, open, exec, n, fds', open', exec', was, forked, counts.count);
      CopiedBelow(fds, open, exec, n, fds', open', exec');
    }
  }

  lemma CopiedBelow(fds: Fds, open: seq<nat>, exec: seq<nat>, n: nat, fds': Fds, open': seq<nat>, exec': seq<nat>)
    requires Copied(fds, open, exec, n, fds', open', exec')
    ensures n <= |fds| && forall i: nat :: Open(open, i) ==> i < n
  {
  }
}
