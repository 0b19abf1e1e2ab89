/** The specification a resynchronising parser must meet: scan a stream from the left, take
    every window of `n` symbols that is valid, skip one symbol where none starts. */
module FrameScan {

  ghost function Frames<T>(valid: seq<T> -> bool, n: nat, s: seq<T>): (frames: seq<seq<T>>)
    requires n > 0
    ensures forall i | 0 <= i < |frames| :: |frames[i]| == n && valid(frames[i])
  {
    if |s| < n then []
    else if valid(s[..n]) then [s[..n]] + Frames(valid, n, s[n..])
    else Frames(valid, n, s[1..])
  }

  ghost predicate StartsAt<T>(valid: seq<T> -> bool, n: nat, s: seq<T>, i: nat) {
    i + n <= |s| && valid(s[i..i + n])
  }

  ghost predicate NoneBefore<T>(valid: seq<T> -> bool, n: nat, s: seq<T>, k: nat) {
    forall i: nat | i < k :: !StartsAt(valid, n, s, i)
  }

  /** Offset `i` starts no frame, whatever symbols follow `s`. */
  ghost predicate Dead<T(!new)>(valid: seq<T> -> bool, n: nat, s: seq<T>, i: nat) {
    forall t: seq<T> :: !StartsAt(valid, n, s + t, i)
  }

  ghost predicate DeadBefore<T(!new)>(valid: seq<T> -> bool, n: nat, s: seq<T>, k: nat) {
    forall i: nat | i < k :: Dead(valid, n, s, i)
  }

  /** Having emitted `out`, keeping only `rest` loses nothing for any continuation of `s`. */
  ghost predicate Resumes<T(!new)>(valid: seq<T> -> bool, n: nat, s: seq<T>, out: seq<seq<T>>, rest: seq<T>)
    requires n > 0
  {
    forall t: seq<T> :: Frames(valid, n, s + t) == out + Frames(valid, n, rest + t)
  }

  lemma {:induction false} SkipTo<T>(valid: seq<T> -> bool, n: nat, s: seq<T>, k: nat)
    requires n > 0 && k <= |s| && NoneBefore(valid, n, s, k)
    ensures Frames(valid, n, s) == Frames(valid, n, s[k..])
  {
    if k == 0 {
      assert s[0..] == s;
    } else {
      assert !StartsAt(valid, n, s, 0);
      var u := s[1..];
      forall i: nat | i < k - 1 ensures !StartsAt(valid, n, u, i) {
        assert !StartsAt(valid, n, s, i + 1);
        if i + n <= |u| {
          assert u[i..i + n] == s[i + 1..i + 1 + n];
        }
      }
      SkipTo(valid, n, u, k - 1);
      assert u[k - 1..] == s[k..];
      if |s| < n {
        assert Frames(valid, n, s[k..]) == [];
      } else {
        assert s[0..0 + n] == s[..n];
      }
    }
  }

  /** The scan emits the frame at the least offset that starts one, then scans what follows. */
  lemma FirstFrame<T>(valid: seq<T> -> bool, n: nat, s: seq<T>, k: nat)
    requires n > 0 && StartsAt(valid, n, s, k) && NoneBefore(valid, n, s, k)
    ensures Frames(valid, n, s) == [s[k..k + n]] + Frames(valid, n, s[k + n..])
  {
    SkipTo(valid, n, s, k);
    var u := s[k..];
    assert u[..n] == s[k..k + n];
    assert u[n..] == s[k + n..];
  }

  lemma NoFrames<T>(valid: seq<T> -> bool, n: nat, s: seq<T>)
    requires n > 0 && NoneBefore(valid, n, s, |s|)
    ensures Frames(valid, n, s) == []
  {
    SkipTo(valid, n, s, |s|);
  }

  lemma PopBeforeMore<T>(valid: seq<T> -> bool, n: nat, s: seq<T>, k: nat, t: seq<T>)
    requires n > 0 && StartsAt(valid, n, s, k) && NoneBefore(valid, n, s, k)
    ensures Frames(valid, n, s + t) == [s[k..k + n]] + Frames(valid, n, s[k + n..] + t)
  {
    var u := s + t;
    forall i: nat | i <= k ensures StartsAt(valid, n, u, i) <==> StartsAt(valid, n, s, i) {
      assert u[i..i + n] == s[i..i + n];
    }
    assert u[k..k + n] == s[k..k + n];
    assert u[k + n..] == s[k + n..] + t;
    FirstFrame(valid, n, u, k);
  }

  lemma PopResumes<T(!new)>(valid: seq<T> -> bool, n: nat, s: seq<T>, k: nat)
    requires n > 0 && StartsAt(valid, n, s, k) && NoneBefore(valid, n, s, k)
    ensures Resumes(valid, n, s, [s[k..k + n]], s[k + n..])
  {
    forall t: seq<T>
      ensures Frames(valid, n, s + t) == [s[k..k + n]] + Frames(valid, n, s[k + n..] + t)
    {
      PopBeforeMore(valid, n, s, k, t);
    }
  }

  lemma DeadStartsNothing<T(!new)>(valid: seq<T> -> bool, n: nat, s: seq<T>, k: nat)
    requires DeadBefore(valid, n, s, k)
    ensures NoneBefore(valid, n, s, k)
  {
    forall i: nat | i < k ensures !StartsAt(valid, n, s, i) {
      assert Dead(valid, n, s, i);
      var none: seq<T> := [];
      assert !StartsAt(valid, n, s + none, i) && s + none == s;
    }
  }

  lemma DeadInSuffix<T(!new)>(valid: seq<T> -> bool, n: nat, s: seq<T>, k: nat, i: nat)
    requires k <= |s| && Dead(valid, n, s[k..], i)
    ensures Dead(valid, n, s, k + i)
  {
    forall t: seq<T> ensures !StartsAt(valid, n, s + t, k + i) {
      var u, w := s[k..] + t, s + t;
      assert !StartsAt(valid, n, u, i);
      if k + i + n <= |w| {
        assert u[i..i + n] == w[k + i..k + i + n];
      }
    }
  }

  lemma DeadThenDead<T(!new)>(valid: seq<T> -> bool, n: nat, s: seq<T>, k: nat, m: nat)
    requires k <= |s| && DeadBefore(valid, n, s, k) && DeadBefore(valid, n, s[k..], m)
    ensures DeadBefore(valid, n, s, k + m)
  {
    forall i: nat | i < k + m ensures Dead(valid, n, s, i) {
      if i >= k {
        DeadInSuffix(valid, n, s, k, i - k);
      }
    }
  }

  lemma DropBeforeMore<T(!new)>(valid: seq<T> -> bool, n: nat, s: seq<T>, k: nat, t: seq<T>)
    requires n > 0 && k <= |s| && DeadBefore(valid, n, s, k)
    ensures Frames(valid, n, s + t) == Frames(valid, n, s[k..] + t)
  {
    forall i: nat | i < k ensures !StartsAt(valid, n, s + t, i) {
      assert Dead(valid, n, s, i);
    }
    SkipTo(valid, n, s + t, k);
    assert (s + t)[k..] == s[k..] + t;
  }

  lemma DropResumes<T(!new)>(valid: seq<T> -> bool, n: nat, s: seq<T>, k: nat)
    requires n > 0 && k <= |s| && DeadBefore(valid, n, s, k)
    ensures Resumes(valid, n, s, [], s[k..])
  {
    forall t: seq<T>
      ensures Frames(valid, n, s + t) == [] + Frames(valid, n, s[k..] + t)
    {
      DropBeforeMore(valid, n, s, k, t);
    }
  }

  lemma ResumesThen<T(!new)>(
    valid: seq<T> -> bool, n: nat, s: seq<T>, out: seq<seq<T>>, mid: seq<T>,
    more: seq<seq<T>>, rest: seq<T>)
    requires n > 0 && Resumes(valid, n, s, out, mid) && Resumes(valid, n, mid, more, rest)
    ensures Resumes(valid, n, s, out + more, rest)
  {
    forall t: seq<T>
      ensures Frames(valid, n, s + t) == (out + more) + Frames(valid, n, rest + t)
    {
      assert Frames(valid, n, s + t) == out + Frames(valid, n, mid + t);
      assert Frames(valid, n, mid + t) == more + Frames(valid, n, rest + t);
    }
  }

  lemma ResumesAfter<T(!new)>(
    valid: seq<T> -> bool, n: nat, s: seq<T>, out: seq<seq<T>>, rest: seq<T>, c: seq<T>)
    requires n > 0 && Resumes(valid, n, s, out, rest)
    ensures Resumes(valid, n, s + c, out, rest + c)
  {
    forall t: seq<T>
      ensures Frames(valid, n, (s + c) + t) == out + Frames(valid, n, (rest + c) + t)
    {
      var u := c + t;
      assert Frames(valid, n, s + u) == out + Frames(valid, n, rest + u);
      assert (s + c) + t == s + u && (rest + c) + t == rest + u;
    }
  }

  function Flatten<T>(parts: seq<seq<T>>): seq<T> {
    if parts == [] then [] else Flatten(parts[..|parts| - 1]) + parts[|parts| - 1]
  }

  lemma OneMoreFrame<T>(valid: seq<T> -> bool, n: nat, frame: seq<T>, tail: seq<T>)
    requires n > 0 && |frame| == n && valid(frame)
    ensures Frames(valid, n, frame + tail) == [frame] + Frames(valid, n, tail)
  {
    var s := frame + tail;
    assert s[..n] == frame && s[n..] == tail;
  }

  /** Frames sent back to back come out one by one. */
  lemma {:induction false} BackToBack<T>(valid: seq<T> -> bool, n: nat, frames: seq<seq<T>>, tail: seq<T>)
    requires n > 0 && forall i | 0 <= i < |frames| :: |frames[i]| == n && valid(frames[i])
    ensures Frames(valid, n, Flatten(frames) + tail) == frames + Frames(valid, n, tail)
  {
    if frames == [] {
      assert Flatten(frames) + tail == tail;
    } else {
      var init, last := frames[..|frames| - 1], frames[|frames| - 1];
      calc {
        Frames(valid, n, Flatten(frames) + tail);
      == { assert Flatten(frames) + tail == Flatten(init) + (last + tail); }
        Frames(valid, n, Flatten(init) + (last + tail));
      == { BackToBack(valid, n, init, last + tail); }
        init + Frames(valid, n, last + tail);
      == { OneMoreFrame(valid, n, last, tail); }
        init + ([last] + Frames(valid, n, tail));
      == { assert frames == init + [last]; }
        frames + Frames(valid, n, tail);
      }
    }
  }
}
