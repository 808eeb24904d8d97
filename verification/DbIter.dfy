/** The database iterator of db/db_iter.cc: the user's view of the entries of an
    internal iterator at one sequence number. */
module DbIter {
  import opened Keys
  import opened Merger

  // ------------------------------------------------------------------ the view at a sequence number

  predicate Visible(e: Entry, s: SequenceNumber) {
    e.key.sequence <= s
  }

  /** The i-th entry is what a reader at `s` sees of its user key: a value, visible,
      with every newer entry of the same user key too new to be visible. */
  predicate Live(c: seq<Entry>, s: SequenceNumber, i: nat)
    requires i < |c|
  {
    && Visible(c[i], s)
    && c[i].key.kind.TypeValue?
    && forall j :: 0 <= j < i && c[j].key.user == c[i].key.user ==> !Visible(c[j], s)
  }

  /** The live entries among the first n. */
  ghost function LiveAmong(c: seq<Entry>, s: SequenceNumber, n: nat): (v: seq<Entry>)
    requires n <= |c|
  {
    if n == 0 then [] else
    LiveAmong(c, s, n - 1) + if Live(c, s, n - 1) then [c[n - 1]] else []
  }

  /** The sorted list of live entries, one per live user key. */
  ghost function View(c: seq<Entry>, s: SequenceNumber): seq<Entry> {
    LiveAmong(c, s, |c|)
  }

  ghost predicate NoneLive(c: seq<Entry>, s: SequenceNumber, lo: int, hi: int)
  {
    forall i :: lo <= i < hi && 0 <= i < |c| ==> !Live(c, s, i)
  }

  /** Stretches without a live entry do not change the rank. */
  lemma {:induction false} RankSkips(c: seq<Entry>, s: SequenceNumber, lo: nat, hi: nat)
    requires lo <= hi <= |c| && NoneLive(c, s, lo, hi)
    ensures LiveAmong(c, s, lo) == LiveAmong(c, s, hi)
  {
    if lo < hi {
      RankSkips(c, s, lo, hi - 1);
    }
  }

  lemma {:induction false} LiveAmongPrefix(c: seq<Entry>, s: SequenceNumber, lo: nat, hi: nat)
    requires lo <= hi <= |c|
    ensures LiveAmong(c, s, lo) <= LiveAmong(c, s, hi)
  {
    if lo < hi {
      LiveAmongPrefix(c, s, lo, hi - 1);
    }
  }

  /** A live entry stands in the view at its rank. */
  lemma RankOfLive(c: seq<Entry>, s: SequenceNumber, i: nat)
    requires i < |c| && Live(c, s, i)
    ensures |LiveAmong(c, s, i)| < |View(c, s)|
    ensures View(c, s)[|LiveAmong(c, s, i)|] == c[i]
    ensures |LiveAmong(c, s, i + 1)| == |LiveAmong(c, s, i)| + 1
  {
    LiveAmongPrefix(c, s, i + 1, |c|);
    assert LiveAmong(c, s, i + 1)[|LiveAmong(c, s, i)|] == c[i];
  }

  /** Every entry of the first n that is live comes from some live index below n. */
  lemma {:induction false} LiveAmongSource(c: seq<Entry>, s: SequenceNumber, n: nat, r: nat) returns (i: nat)
    requires n <= |c| && r < |LiveAmong(c, s, n)|
    ensures i < n && Live(c, s, i) && |LiveAmong(c, s, i)| == r && LiveAmong(c, s, n)[r] == c[i]
  {
    if Live(c, s, n - 1) && r == |LiveAmong(c, s, n - 1)| {
      i := n - 1;
    } else {
      i := LiveAmongSource(c, s, n - 1, r);
    }
  }

  /** The view is strictly increasing in user keys and holds exactly the live entries. */
  lemma ViewSorted(c: seq<Entry>, s: SequenceNumber)
    requires Sorted(c)
    ensures forall a, b :: 0 <= a < b < |View(c, s)| ==> View(c, s)[a].key.user < View(c, s)[b].key.user
  {
    var v := View(c, s);
    forall a, b | 0 <= a < b < |v|
      ensures v[a].key.user < v[b].key.user
    {
      var i := LiveAmongSource(c, s, |c|, a);
      var j := LiveAmongSource(c, s, |c|, b);
      if j < i {
        LiveAmongPrefix(c, s, j + 1, i);
        RankOfLive(c, s, j);
      }
      SortedIndex(c, i, j);
    }
  }

  lemma ViewExact(c: seq<Entry>, s: SequenceNumber, e: Entry)
    requires Sorted(c)
    ensures e in View(c, s) <==> exists i :: 0 <= i < |c| && c[i] == e && Live(c, s, i)
  {
    if e in View(c, s) {
      var r :| 0 <= r < |View(c, s)| && View(c, s)[r] == e;
      var i := LiveAmongSource(c, s, |c|, r);
    }
    if i :| 0 <= i < |c| && c[i] == e && Live(c, s, i) {
      RankOfLive(c, s, i);
    }
  }

  // ------------------------------------------------------------------ scanning forward

  /** The forward scan looks for the first live entry at or after `from` and stands at
      `p`.  Nothing live was passed; when skipping, no entry still to come with a user
      key up to `k` is live; every entry hidden by a passed one has such a user key. */
  ghost predicate Scanning(c: seq<Entry>, s: SequenceNumber, from: nat, p: nat, skipping: bool, k: UserKey) {
    && Sorted(c) && from <= |c|
    && NoneLive(c, s, from, p)
    && (forall j :: p <= j < from ==>
          skipping && c[j].key.user <= k && (Visible(c[j], s) ==> c[j].key.user == k))
    && (skipping ==> forall j :: p <= j < |c| && from <= j && c[j].key.user <= k ==> !Live(c, s, j))
    && (forall i, j :: (0 <= i < p <= j < |c| && c[i].key.user == c[j].key.user && Visible(c[i], s)) ==>
          skipping && c[j].key.user <= k)
  }

  lemma SortedUsers(c: seq<Entry>, i: nat, j: nat)
    requires Sorted(c) && i <= j < |c|
    ensures c[i].key.user <= c[j].key.user
  {
    if i < j {
      assert Less(c[i].key, c[j].key);
    }
  }

  /** A visible deletion makes the scan skip the rest of its user key. */
  lemma ScanDeletion(c: seq<Entry>, s: SequenceNumber, from: nat, p: nat, skipping: bool, k: UserKey)
    requires Scanning(c, s, from, p, skipping, k) && p < |c|
    requires Visible(c[p], s) && c[p].key.kind.TypeDeletion?
    ensures Scanning(c, s, from, p + 1, true, c[p].key.user)
  {
    forall j | p < j < |c|
      ensures c[p].key.user <= c[j].key.user
      ensures c[j].key.user == c[p].key.user ==> !Live(c, s, j)
    {
      SortedUsers(c, p, j);
    }
  }

  /** An entry that is too new or hidden is passed without a change of state. */
  lemma ScanHidden(c: seq<Entry>, s: SequenceNumber, from: nat, p: nat, skipping: bool, k: UserKey)
    requires Scanning(c, s, from, p, skipping, k) && p < |c|
    requires Visible(c[p], s) ==> skipping && c[p].key.user <= k
    ensures Scanning(c, s, from, p + 1, skipping, k)
  {
  }

  /** A visible value that is not hidden is the entry the scan looks for. */
  lemma ScanFound(c: seq<Entry>, s: SequenceNumber, from: nat, p: nat, skipping: bool, k: UserKey)
    requires Scanning(c, s, from, p, skipping, k) && p < |c|
    requires Visible(c[p], s) && c[p].key.kind.TypeValue? && !(skipping && c[p].key.user <= k)
    ensures from <= p && Live(c, s, p) && NoneLive(c, s, from, p)
  {
  }

  /** A scan that has passed every entry found nothing. */
  lemma ScanExhausted(c: seq<Entry>, s: SequenceNumber, from: nat, skipping: bool, k: UserKey)
    requires Scanning(c, s, from, |c|, skipping, k)
    ensures NoneLive(c, s, from, |c|)
  {
  }

  // ------------------------------------------------------------------ scanning backward

  ghost predicate NoneVisible(c: seq<Entry>, s: SequenceNumber, lo: int, hi: int) {
    forall i :: lo <= i < hi && 0 <= i < |c| ==> !Visible(c[i], s)
  }

  /** The backward scan has passed the indices from p + 1 up to `upto`.  Either
      nothing live was passed and the last visible entry passed, if any, is a deletion,
      or that entry is the value at `q` and nothing live lies above it. */
  ghost predicate Rescanning(c: seq<Entry>, s: SequenceNumber, p: int, upto: nat, kind: ValueType, q: nat) {
    && Sorted(c) && -1 <= p < upto <= |c|
    && (kind.TypeDeletion? ==> NoneLive(c, s, p + 1, upto))
    && (kind.TypeValue? ==>
          && p < q < upto
          && Visible(c[q], s) && c[q].key.kind.TypeValue?
          && NoneVisible(c, s, p + 1, q)
          && NoneLive(c, s, q + 1, upto))
  }

  lemma RescanInvisible(c: seq<Entry>, s: SequenceNumber, p: nat, upto: nat, kind: ValueType, q: nat)
    requires Rescanning(c, s, p, upto, kind, q) && !Visible(c[p], s)
    ensures Rescanning(c, s, p - 1, upto, kind, q)
  {
  }

  /** A visible entry takes over from the candidate, whose user key it shares. */
  lemma RescanVisible(c: seq<Entry>, s: SequenceNumber, p: nat, upto: nat, kind: ValueType, q: nat)
    requires Rescanning(c, s, p, upto, kind, q) && Visible(c[p], s)
    requires kind.TypeValue? ==> c[q].key.user <= c[p].key.user
    ensures Rescanning(c, s, p - 1, upto, c[p].key.kind, p)
  {
    if kind.TypeValue? {
      SortedUsers(c, p, q);
      assert !Live(c, s, q);
      assert NoneLive(c, s, p + 1, upto);
    }
  }

  lemma NothingRemembered(c: seq<Entry>, s: SequenceNumber, upto: nat, kind: ValueType, q: nat)
    requires Rescanning(c, s, -1, upto, kind, q)
    ensures kind.TypeDeletion? ==> NoneLive(c, s, 0, upto)
  {
  }

  /** The candidate is live once a visible entry of a smaller user key, or the front, is reached. */
  lemma CandidateIsLive(c: seq<Entry>, s: SequenceNumber, p: int, upto: nat, q: nat)
    requires Rescanning(c, s, p, upto, TypeValue, q)
    requires 0 <= p ==> Visible(c[p], s) && c[p].key.user < c[q].key.user
    ensures q < upto && Live(c, s, q) && NoneLive(c, s, q + 1, upto)
    ensures JustBefore(c, s, if p == -1 then |c| else p, c[q].key.user)
  {
    forall j | 0 <= j < |c| && (j < q || c[j].key.user < c[q].key.user)
      ensures j < q
      ensures j <= p ==> c[j].key.user <= c[p].key.user
    {
      if q <= j {
        SortedUsers(c, q, j);
      }
      if j <= p {
        SortedUsers(c, j, p);
      }
    }
  }

  /** Where the internal iterator stands when moving in reverse from the user key `k`:
      on the last visible entry of a smaller user key, or off the end when there is none. */
  ghost predicate JustBefore(c: seq<Entry>, s: SequenceNumber, p: nat, k: UserKey) {
    && p <= |c|
    && (p < |c| ==> c[p].key.user < k)
    && forall j :: 0 <= j < |c| && (p < j || p == |c|) && c[j].key.user < k ==> !Visible(c[j], s)
  }

  // ------------------------------------------------------------------ where the scans start

  /** From a live entry on: its own user key is to be skipped. */
  lemma ScanFromLive(c: seq<Entry>, s: SequenceNumber, at: nat)
    requires Sorted(c) && at < |c| && Live(c, s, at)
    ensures Scanning(c, s, at + 1, at, true, c[at].key.user)
  {
    forall i, j | 0 <= i <= at <= j < |c|
      ensures c[i].key.user <= c[at].key.user <= c[j].key.user
    {
      SortedUsers(c, i, at);
      SortedUsers(c, at, j);
    }
  }

  /** Forward again from the place kept while moving in reverse. */
  lemma ScanFromBefore(c: seq<Entry>, s: SequenceNumber, at: nat, p: nat)
    requires Sorted(c) && at < |c| && Live(c, s, at) && JustBefore(c, s, p, c[at].key.user)
    ensures var start := if p == |c| then 0 else p + 1;
            start <= at && Scanning(c, s, at + 1, start, true, c[at].key.user)
  {
    var start, k := if p == |c| then 0 else p + 1, c[at].key.user;
    if at <= p < |c| {
      SortedUsers(c, at, p);
    }
    forall i, j | 0 <= i <= j < |c|
      ensures c[i].key.user <= c[j].key.user
    {
      SortedUsers(c, i, j);
    }
  }

  lemma ScanFromSeek(c: seq<Entry>, s: SequenceNumber, target: UserKey, p: nat)
    requires Sorted(c) && p == LowerBound(c, SeekKey(target, s))
    ensures Scanning(c, s, p, p, false, target)
  {
    LowerBoundSplits(c, SeekKey(target, s));
  }

  /** The rank of a seek position splits the view at the target. */
  lemma SeekRank(c: seq<Entry>, s: SequenceNumber, target: UserKey, p: nat)
    requires Sorted(c) && p == LowerBound(c, SeekKey(target, s))
    ensures |LiveAmong(c, s, p)| <= |View(c, s)|
    ensures forall i :: 0 <= i < |LiveAmong(c, s, p)| ==> View(c, s)[i].key.user < target
    ensures forall i :: |LiveAmong(c, s, p)| <= i < |View(c, s)| ==> target <= View(c, s)[i].key.user
  {
    LowerBoundSplits(c, SeekKey(target, s));
    LiveAmongPrefix(c, s, p, |c|);
    forall i | 0 <= i < |View(c, s)|
      ensures i < |LiveAmong(c, s, p)| ==> View(c, s)[i].key.user < target
      ensures |LiveAmong(c, s, p)| <= i ==> target <= View(c, s)[i].key.user
    {
      var q := LiveAmongSource(c, s, |c|, i);
      assert q < p <==> Less(c[q].key, SeekKey(target, s));
      if q < p {
        LiveAmongPrefix(c, s, q + 1, p);
        RankOfLive(c, s, q);
      } else {
        LiveAmongPrefix(c, s, p, q);
      }
    }
  }

  /** Back from the entries of the live entry's user key, or from the place kept. */
  lemma RescanFromBefore(c: seq<Entry>, s: SequenceNumber, at: nat, p: nat)
    requires Sorted(c) && at < |c| && Live(c, s, at) && JustBefore(c, s, p, c[at].key.user)
    ensures p < |c| ==> Rescanning(c, s, p, at, TypeDeletion, 0)
    ensures p == |c| ==> NoneLive(c, s, 0, at)
  {
    if at <= p < |c| {
      SortedUsers(c, at, p);
    }
    forall j | 0 <= j < at
      ensures c[j].key.user <= c[at].key.user
    {
      SortedUsers(c, j, at);
    }
  }

  lemma RescanFromFront(c: seq<Entry>, s: SequenceNumber, at: nat, p: int)
    requires Sorted(c) && at < |c| && Live(c, s, at) && -1 <= p < at
    requires forall j :: p < j <= at ==> c[j].key.user == c[at].key.user
    ensures NoneLive(c, s, p + 1, at)
    ensures 0 <= p ==> Rescanning(c, s, p, at, TypeDeletion, 0)
  {
  }

  // ------------------------------------------------------------------ the iterator

  /** Refines a cursor over `View(iter.contents, sequence)`: `place` is the abstract
      position, and the length of the view is its one invalid value. */
  class DBIter {
    const iter: MergingIterator
    const sequence: SequenceNumber
    var direction: Direction
    var valid: bool
    var savedKey: UserKey      // the current key when moving in reverse
    var savedValue: Value      // the current value when moving in reverse
    ghost var at: nat          // the index of the current entry in iter.contents
    ghost var place: nat

    ghost function Contents(): seq<Entry> {
      iter.contents
    }

    ghost function Repr(): set<object> {
      {this} + iter.Repr()
    }

    ghost function TheView(): seq<Entry> {
      View(Contents(), sequence)
    }

    ghost predicate Ok()
      reads Repr()
    {
      && this !in iter.Repr()
      && iter.Ok()
      && Sorted(Contents())
      && (valid ==>
            && at < |Contents()| && Live(Contents(), sequence, at)
            && place == |LiveAmong(Contents(), sequence, at)|
            && (direction.Forward? ==> iter.pos == at)
            && (direction.Reverse? ==>
                  && savedKey == Contents()[at].key.user && savedValue == Contents()[at].value
                  && JustBefore(Contents(), sequence, iter.pos, savedKey)))
      && (!valid ==> place == |TheView()|)
    }

    constructor (iter: MergingIterator, sequence: SequenceNumber)
      requires iter.Ok()
      ensures this.iter == iter && this.sequence == sequence
      ensures Ok() && place == |TheView()|
    {
      this.iter, this.sequence := iter, sequence;
      direction, valid, savedKey, savedValue := Forward, false, 0.0, "";
      place := |View(iter.contents, sequence)|;
    }

    /** When the iterator is valid it shows the view's entry at its place. */
    lemma PlaceInView()
      requires Ok()
      ensures valid <==> place < |TheView()|
      ensures valid ==> TheView()[place] == Contents()[at]
    {
      if valid {
        RankOfLive(Contents(), sequence, at);
      }
    }

    function Key(): (k: UserKey)
      requires Ok() && valid
      reads Repr()
      ensures place < |TheView()| && k == TheView()[place].key.user
    {
      PlaceInView();
      if direction.Forward? then iter.Current().key.user else savedKey
    }

    function Val(): (v: Value)
      requires Ok() && valid
      reads Repr()
      ensures place < |TheView()| && v == TheView()[place].value
    {
      PlaceInView();
      if direction.Forward? then iter.Current().value else savedValue
    }

    /** Moves forward from the internal iterator's position to the first live entry
        at or after index `from`, hiding user keys up to savedKey when skipping. */
    method FindNextUserEntry(skip: bool, ghost from: nat)
      requires this !in iter.Repr() && iter.Ok() && iter.Valid() && direction.Forward?
      requires Sorted(Contents()) && Scanning(Contents(), sequence, from, iter.pos, skip, savedKey)
      modifies Repr()
      ensures Ok() && direction.Forward?
      ensures valid ==> from <= at && NoneLive(Contents(), sequence, from, at)
      ensures !valid ==> NoneLive(Contents(), sequence, from, |Contents()|)
    {
      hide Scanning, MergingIterator.Ok, NoneLive, JustBefore, Sorted, Live;
      ghost var c := Contents();
      var skipping := skip;
      while true
        invariant this !in iter.Repr() && iter.Ok() && iter.Valid() && direction.Forward?
        invariant Scanning(c, sequence, from, iter.pos, skipping, savedKey)
        decreases |c| - iter.pos
      {
        var e := iter.Current();
        if e.key.sequence <= sequence {
          match e.key.kind
          case TypeDeletion =>
            ScanDeletion(c, sequence, from, iter.pos, skipping, savedKey);
            savedKey := e.key.user;
            skipping := true;
          case TypeValue =>
            if skipping && e.key.user <= savedKey {
              // entry hidden
              ScanHidden(c, sequence, from, iter.pos, skipping, savedKey);
            } else {
              ScanFound(c, sequence, from, iter.pos, skipping, savedKey);
              valid := true;
              savedKey := 0.0;
              at, place := iter.pos, |LiveAmong(c, sequence, iter.pos)|;
              return;
            }
        } else {
          ScanHidden(c, sequence, from, iter.pos, skipping, savedKey);
        }
        iter.Next();
        if !iter.Valid() {
          break;
        }
      }
      ScanExhausted(c, sequence, from, skipping, savedKey);
      savedKey := 0.0;
      valid := false;
      place := |TheView()|;
    }

    /** Moves back from the internal iterator's position to the last live entry before
        index `upto`; the entries in between are not visible. */
    method FindPrevUserEntry(ghost upto: nat)
      requires this !in iter.Repr() && iter.Ok() && direction.Reverse?
      requires Sorted(Contents())
      requires iter.Valid() ==> Rescanning(Contents(), sequence, iter.pos, upto, TypeDeletion, 0)
      requires !iter.Valid() ==> NoneLive(Contents(), sequence, 0, upto)
      modifies Repr()
      ensures Ok()
      ensures valid ==> direction.Reverse? && at < upto && NoneLive(Contents(), sequence, at + 1, upto)
      ensures !valid ==> direction.Forward? && NoneLive(Contents(), sequence, 0, upto)
    {
      hide Rescanning, MergingIterator.Ok, NoneLive, JustBefore, LiveAmong, Sorted, Live;
      ghost var c := Contents();
      ghost var q: nat, p: int := 0, -1;
      var valueType := TypeDeletion;
      if iter.Valid() {
        valueType, q, p := ScanBack(upto);
      }
      if valueType.TypeDeletion? {
        valid := false;
        savedKey, savedValue := 0.0, "";
        direction := Forward;
        place := |TheView()|;
      } else {
        CandidateIsLive(c, sequence, p, upto, q);
        valid := true;
        at, place := q, |LiveAmong(c, sequence, q)|;
      }
    }

    /** The loop of FindPrevUserEntry: remembers the newest visible entry of a user key,
        and stops at the next visible entry if the remembered one is live. */
    method ScanBack(ghost upto: nat) returns (valueType: ValueType, ghost q: nat, ghost p: int)
      requires this !in iter.Repr() && iter.Ok() && iter.Valid() && direction.Reverse?
      requires Rescanning(Contents(), sequence, iter.pos, upto, TypeDeletion, 0)
      modifies iter.Repr(), this`savedKey, this`savedValue
      ensures this !in iter.Repr() && iter.Ok() && -1 <= p < |Contents()|
      ensures iter.pos == if p == -1 then |Contents()| else p
      ensures Rescanning(Contents(), sequence, p, upto, valueType, q)
      ensures valueType.TypeDeletion? ==> NoneLive(Contents(), sequence, 0, upto)
      ensures valueType.TypeValue? ==>
                && q < |Contents()| && savedKey == Contents()[q].key.user && savedValue == Contents()[q].value
                && (0 <= p ==> Visible(Contents()[p], sequence) && Contents()[p].key.user < Contents()[q].key.user)
    {
      hide Rescanning, MergingIterator.Ok, NoneLive, Sorted;
      ghost var c := Contents();
      valueType, q, p := TypeDeletion, 0, iter.pos;
      while true
        invariant this !in iter.Repr() && iter.Ok() && iter.Valid() && p == iter.pos
        invariant Rescanning(c, sequence, p, upto, valueType, q)
        invariant valueType.TypeValue? ==> q < |c| && savedKey == c[q].key.user && savedValue == c[q].value
        decreases p
      {
        var e := iter.Current();
        if e.key.sequence <= sequence {
          if !valueType.TypeDeletion? && e.key.user < savedKey {
            return;
          }
          RescanVisible(c, sequence, p, upto, valueType, q);
          valueType := e.key.kind;
          if valueType.TypeDeletion? {
            savedKey, savedValue := 0.0, "";
          } else {
            savedKey, savedValue := e.key.user, e.value;
          }
          q := p;
        } else {
          RescanInvisible(c, sequence, p, upto, valueType, q);
        }
        iter.Prev();
        p := p - 1;
        if !iter.Valid() {
          NothingRemembered(c, sequence, upto, valueType, q);
          return;
        }
      }
    }

    method Next()
      requires Ok() && valid
      modifies Repr()
      ensures Ok()
      ensures place == old(place) + 1
    {
      hide Scanning, JustBefore, MergingIterator.Ok, Rescanning;
      ghost var c, from := Contents(), at + 1;
      RankOfLive(c, sequence, at);
      if direction.Reverse? {
        ScanFromBefore(c, sequence, at, iter.pos);
        direction := Forward;
        if !iter.Valid() {
          iter.SeekToFirst();
        } else {
          iter.Next();
        }
        if !iter.Valid() {
          assert false;  // LevelDB gives up here, but the current entry lies ahead
        }
      } else {
        ScanFromLive(c, sequence, at);
        savedKey := iter.Current().key.user;
      }
      FindNextUserEntry(true, from);
      RankSkips(c, sequence, from, if valid then at else |c|);
    }

    method Prev()
      requires Ok() && valid
      modifies Repr()
      ensures Ok()
      ensures place == LastOf(old(place), |TheView()|)
    {
      hide Scanning, JustBefore, MergingIterator.Ok, Rescanning;
      ghost var c, upto := Contents(), at;
      RankOfLive(c, sequence, upto);
      if direction.Forward? {
        savedKey := iter.Current().key.user;
        while true
          invariant this !in iter.Repr() && iter.Ok() && iter.Valid() && iter.pos <= upto
          invariant valid && direction.Forward? && at == upto && savedKey == c[upto].key.user
          invariant forall j :: iter.pos <= j <= upto ==> c[j].key.user == savedKey
          decreases iter.pos
        {
          iter.Prev();
          if !iter.Valid() {
            RescanFromFront(c, sequence, upto, -1);
            RankSkips(c, sequence, 0, upto);
            valid := false;
            savedKey, savedValue := 0.0, "";
            place := |TheView()|;
            return;
          }
          if iter.Current().key.user < savedKey {
            break;
          }
          SortedUsers(c, iter.pos, upto);
        }
        RescanFromFront(c, sequence, upto, iter.pos);
        direction := Reverse;
      } else {
        RescanFromBefore(c, sequence, upto, iter.pos);
      }
      FindPrevUserEntry(upto);
      RankBack(upto);
    }

    /** The rank after a move back from the live index `upto`. */
    lemma RankBack(upto: nat)
      requires Ok() && upto <= |Contents()|
      requires valid ==> at < upto && NoneLive(Contents(), sequence, at + 1, upto)
      requires !valid ==> NoneLive(Contents(), sequence, 0, upto)
      ensures place == LastOf(|LiveAmong(Contents(), sequence, upto)|, |TheView()|)
    {
      if valid {
        RankSkips(Contents(), sequence, at + 1, upto);
        RankOfLive(Contents(), sequence, at);
      } else {
        RankSkips(Contents(), sequence, 0, upto);
      }
    }

    /** Seek goes to the first entry of the view at or after the target. */
    method Seek(target: UserKey)
      requires Ok()
      modifies Repr()
      ensures Ok()
      ensures place <= |TheView()|
      ensures forall i :: 0 <= i < place ==> TheView()[i].key.user < target
      ensures forall i :: place <= i < |TheView()| ==> target <= TheView()[i].key.user
    {
      hide Scanning, JustBefore, MergingIterator.Ok, Rescanning, LiveAmong, Sorted;
      ghost var c := Contents();
      direction := Forward;
      savedValue := "";
      savedKey := target;
      iter.Seek(SeekKey(savedKey, sequence));
      ghost var p := iter.pos;
      ScanFromSeek(c, sequence, target, p);
      SeekRank(c, sequence, target, p);
      if iter.Valid() {
        FindNextUserEntry(false, p);
        RankSkips(c, sequence, p, if valid then at else |c|);
      } else {
        valid := false;
        place := |TheView()|;
      }
    }

    method SeekToFirst()
      requires Ok()
      modifies Repr()
      ensures Ok()
      ensures place == 0
    {
      hide JustBefore, MergingIterator.Ok, Rescanning;
      ghost var c := Contents();
      direction := Forward;
      savedValue := "";
      iter.SeekToFirst();
      if iter.Valid() {
        FindNextUserEntry(false, 0);
        RankSkips(c, sequence, 0, if valid then at else |c|);
      } else {
        valid := false;
        place := |TheView()|;
      }
    }

    method SeekToLast()
      requires Ok()
      modifies Repr()
      ensures Ok()
      ensures place == LastOf(|TheView()|, |TheView()|)
    {
      hide Scanning, JustBefore, MergingIterator.Ok;
      direction := Reverse;
      savedValue := "";
      iter.SeekToLast();
      FindPrevUserEntry(|Contents()|);
      RankBack(|Contents()|);
    }
  }
}
