/** The table that gives every kernel descriptor a 64-bit number that is never used again (`fd_manager_t`).
`T` is what `fd_info_t` holds: a pointer to a connection. */
module FdManager {

  const U32_MAX: nat := 0xFFFF_FFFF

  /** The part of the table its users see: the live numbers with their descriptors, the connection each
      belongs to, and every number ever handed out. */
  datatype Table<T> = Table(live: map<nat, int>, info: map<nat, T>, issued: set<nat>)

  /** The table after the numbers in `gone` were closed. */
  function Closed<T>(t: Table<T>, gone: set<nat>): Table<T> {
    Table(t.live - gone, t.info - gone, t.issued)
  }

  lemma ClosedTwice<T>(t: Table<T>, a: set<nat>, b: set<nat>)
    ensures Closed(Closed(t, a), b) == Closed(t, a + b)
  {
    assert (t.live - a) - b == t.live - (a + b);
    assert (t.info - a) - b == t.info - (a + b);
  }

  lemma ClosedNone<T>(t: Table<T>)
    ensures Closed(t, {}) == t
  {
    assert t.live - {} == t.live && t.info - {} == t.info;
  }

  class FdManager<T> {
    var counter: nat
    var fdToFd64: map<int, nat>
    var fd64ToFd: map<nat, int>
    var info: map<nat, T>           // fd_info_mp: the connection a number belongs to
    ghost var issued: set<nat>      // every number ever handed out

    ghost predicate Valid()
      reads this
    {
      && (forall fd :: fd in fdToFd64 ==> fdToFd64[fd] in fd64ToFd && fd64ToFd[fdToFd64[fd]] == fd)
      && (forall f :: f in fd64ToFd ==> fd64ToFd[f] in fdToFd64 && fdToFd64[fd64ToFd[f]] == f)
      && info.Keys <= fd64ToFd.Keys <= issued
      && U32_MAX < counter
      && (forall f :: f in issued ==> U32_MAX < f < counter)
    }

    ghost function View(): Table<T>
      reads this
    {
      Table(fd64ToFd, info, issued)
    }

    constructor ()
      ensures Valid() && issued == {} && fd64ToFd == map[] && info == map[]
    {
      counter := U32_MAX + 100;
      fdToFd64, fd64ToFd, info := map[], map[], map[];
      issued := {};
    }

    predicate Exist(f: nat)
      reads this
    {
      f in fd64ToFd
    }

    function ToFd(f: nat): (fd: int)
      reads this
      requires Valid() && Exist(f)
      ensures fd in fdToFd64 && fdToFd64[fd] == f
    {
      fd64ToFd[f]
    }

    /** The kernel never returns a descriptor that is still open. */
    method Create(fd: int) returns (f: nat)
      requires Valid() && fd !in fdToFd64
      modifies this
      ensures Valid()
      ensures f !in old(issued) && issued == old(issued) + {f} && f > U32_MAX
      ensures fd64ToFd == old(fd64ToFd)[f := fd] && fdToFd64 == old(fdToFd64)[fd := f] && info == old(info)
      ensures f !in old(fd64ToFd)
    {
      f := counter;
      counter := counter + 1;
      fdToFd64 := fdToFd64[fd := f];
      fd64ToFd := fd64ToFd[f := fd];
      issued := issued + {f};
    }

    method SetInfo(f: nat, owner: T)
      requires Valid() && Exist(f)
      modifies this`info
      ensures Valid() && info == old(info)[f := owner]
    {
      info := info[f := owner];
    }

    method Fd64Close(f: nat)
      requires Valid() && Exist(f)
      modifies this
      ensures Valid() && View() == Closed(old(View()), {f}) && fd64ToFd == old(fd64ToFd) - {f}
      ensures fdToFd64 == old(fdToFd64) - {old(fd64ToFd[f])}
    {
      var fd := fd64ToFd[f];
      fd64ToFd := fd64ToFd - {f};
      fdToFd64 := fdToFd64 - {fd};
      if f in info {
        info := info - {f};
      } else {
        assert info - {f} == info;
      }
    }
  }
}
