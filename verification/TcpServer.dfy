/** The server's pool of connection objects (potato/net/TcpServer.cpp). Each critical section under lock_ is one
    method; ConnectionPool shows what interleaving them keeps. */
module TcpServer {
  import S = Session
  import SessionProofs
  import opened TcpConnection
  import opened ConnectionPool

  class TcpServer {
    var connectionPool: seq<TcpConnection>
    var availIndex: set<nat>

    /** Nothing of a session is left in c but the buffers. */
    ghost predicate Unused(c: TcpConnection)
      reads c
    {
      && c.loop == null && c.socket == null && c.ioEvent == null
      && c.readBuffer.Valid() && c.writeBuffer.Valid() && c.readBuffer.Writeable() >= S.READ_ROOM
    }

    /** Object i has index i, no object is there twice, and those on the free list are unused. */
    ghost predicate Valid()
      reads this, connectionPool
    {
      && (forall i | 0 <= i < |connectionPool| :: connectionPool[i].index == i)
      && (forall i | i in availIndex :: i < |connectionPool| && Unused(connectionPool[i]))
    }

    /** A connection whose session has ended may be returned. */
    lemma EndedIsUnused(c: TcpConnection)
      requires c.Valid() && c.View().phase == S.Free
      ensures Unused(c)
    {}

    constructor ()
      ensures Valid() && |connectionPool| == BATCH && availIndex == Range(0, BATCH)
      ensures forall c | c in connectionPool :: fresh(c) && c.View() == S.NEW_CONNECTION
    {
      connectionPool := [];
      availIndex := {};
      new;
      AddConnections();
    }

    /** One turn of the loop below. */
    method AddConnection()
      requires Valid()
      modifies this
      ensures Valid() && |connectionPool| == |old(connectionPool)| + 1 && old(connectionPool) <= connectionPool
      ensures availIndex == old(availIndex) + {|old(connectionPool)|}
      ensures var c := connectionPool[|old(connectionPool)|]; fresh(c) && c.View() == S.NEW_CONNECTION
    {
      var index := |connectionPool|;
      var c := new TcpConnection(index);
      connectionPool := connectionPool + [c];
      availIndex := availIndex + {index};
    }

    /** The loop of 200 insertions. */
    method AddConnections()
      requires Valid() && availIndex == {}
      modifies this
      ensures Valid() && old(connectionPool) <= connectionPool
      ensures |connectionPool| == |old(connectionPool)| + BATCH
      ensures availIndex == Range(|old(connectionPool)|, BATCH)
      ensures forall i | |old(connectionPool)| <= i < |connectionPool| ::
                fresh(connectionPool[i]) && connectionPool[i].View() == S.NEW_CONNECTION
    {
      var first := |connectionPool|;
      var i := 0;
      while i < BATCH
        invariant 0 <= i <= BATCH && |connectionPool| == first + i
        invariant old(connectionPool) <= connectionPool && Valid()
        invariant availIndex == Range(first, i)
        invariant forall k | first <= k < |connectionPool| ::
                    fresh(connectionPool[k]) && connectionPool[k].View() == S.NEW_CONNECTION
      {
        AddConnection();
        i := i + 1;
      }
    }

    /** First critical section: the second test, and growth if the free list is still empty. */
    method GrowIfEmpty()
      requires Valid()
      modifies this
      ensures Valid() && availIndex != {} && old(connectionPool) <= connectionPool
      ensures old(availIndex) != {} ==> connectionPool == old(connectionPool) && availIndex == old(availIndex)
      ensures old(availIndex) == {} ==> |connectionPool| == |old(connectionPool)| + BATCH
                                        && availIndex == Range(|old(connectionPool)|, BATCH)
      ensures forall i | |old(connectionPool)| <= i < |connectionPool| :: fresh(connectionPool[i])
    {
      if availIndex == {} {
        var first := |connectionPool|;
        AddConnections();
        assert first in availIndex;
      }
    }

    /** Second critical section. */
    method TakeIndex() returns (index: nat)
      requires Valid() && availIndex != {}
      modifies this`availIndex
      ensures Valid() && index in old(availIndex) && availIndex == old(availIndex) - {index}
      ensures index < |connectionPool| && Unused(connectionPool[index])
    {
      index :| index in availIndex;
      availIndex := availIndex - {index};
    }

    /** returnConnection. Its caller has run reset. */
    method ReturnConnection(conn: TcpConnection)
      requires Valid() && conn in connectionPool && Unused(conn)
      modifies this`availIndex
      ensures Valid() && availIndex == old(availIndex) + {conn.index}
    {
      availIndex := availIndex + {conn.index};
    }

    /** The free list in the second critical section, back aside. */
    ghost function OnHand(free: set<nat>, size: nat): set<nat> {
      if free == {} then Range(size, BATCH) else free
    }

    /** borrowConnection. back is what other threads return between the two critical sections. */
    method BorrowConnection(back: set<nat>) returns (conn: TcpConnection)
      requires Valid() && forall i | i in back :: i < |connectionPool| && Unused(connectionPool[i])
      modifies this
      ensures Valid() && old(connectionPool) <= connectionPool
      ensures conn in connectionPool && Unused(conn) && conn.index !in availIndex
      ensures |connectionPool| == |old(connectionPool)| + if old(availIndex) == {} then BATCH else 0
      ensures availIndex == OnHand(old(availIndex), |old(connectionPool)|) + back - {conn.index}
      ensures conn in old(connectionPool) ==> conn.index in old(availIndex) + back
      ensures conn !in old(connectionPool) ==> old(availIndex) == {} && fresh(conn)
    {
      if availIndex == {} {
        GrowIfEmpty();
      }
      availIndex := availIndex + back;
      var index := TakeIndex();
      conn := connectionPool[index];
    }

    /** newConnection: the asserts of bindSocket hold for whatever object the pool hands out. */
    method NewConnection(socket: Socket, loop: EventLoop, back: set<nat>) returns (conn: TcpConnection)
      requires Valid() && socket.connected
      requires forall i | i in back :: i < |connectionPool| && Unused(connectionPool[i])
      modifies this, connectionPool
      ensures Valid() && old(connectionPool) <= connectionPool
      ensures |connectionPool| == |old(connectionPool)| + if old(availIndex) == {} then BATCH else 0
      ensures availIndex == OnHand(old(availIndex), |old(connectionPool)|) + back - {conn.index}
      ensures Lent(conn) && conn.View().phase == S.Bound && conn.socket == socket && conn.loop == loop
      ensures conn in old(connectionPool) ==>
                && conn.index in old(availIndex) + back && old(Unused(conn))
                && conn.View() == S.Bind(old(conn.View()), loop.watcher.etMode)
      ensures conn !in old(connectionPool) ==> old(availIndex) == {}
      ensures forall c | c in old(connectionPool) && c != conn :: unchanged(c)
    {
      conn := BorrowConnection(back);
      SessionProofs.BindIsLive(conn.View(), loop.watcher.etMode);
      conn.BindSocket(socket, loop);
    }

    /** The cells of ConnectionPool. */
    ghost function Cells(): (cs: seq<Cell>)
      reads this, connectionPool
      ensures |cs| == |connectionPool|
    {
      seq(|connectionPool|, i requires 0 <= i < |connectionPool| reads this, connectionPool =>
            Cell(connectionPool[i].index, connectionPool[i].ioEvent != null))
    }

    /** In the pool, off the free list, and in the middle of a session. */
    ghost predicate Lent(conn: TcpConnection)
      reads this, conn, conn.ioEvent, conn.Watched(), conn.socket
    {
      conn in connectionPool && conn.index !in availIndex && conn.Valid() && SessionProofs.Live(conn.View())
    }

    /** The session of a lent object goes on. If it ends, destroyConnection gives the object back, once, which does to
        the cells what EndSession and Insert do; if not, the object stays lent. */
    method RunLent(conn: TcpConnection, es: seq<S.Event>)
      requires Valid() && Lent(conn) && AllEnabled(conn.View(), es)
      modifies this`availIndex, conn, conn.ioEvent, conn.Watched(), conn.socket
      ensures Valid() && conn.Valid() && conn.View() == S.Run(old(conn.View()), es)
      ensures conn.View().phase == S.Free ==>
                && Unused(conn) && availIndex == old(availIndex) + {conn.index} && conn.h.returned == 1
                && Cells() == old(Cells())[conn.index := Cell(conn.index, false)]
      ensures conn.View().phase != S.Free ==>
                Lent(conn) && availIndex == old(availIndex) && conn.h.returned == 0 && Cells() == old(Cells())
    {
      SessionProofs.LiveUntilReturned(conn.View(), es);
      conn.HandleEvents(es);
      if conn.socket == null {
        EndedIsUnused(conn);
        ReturnConnection(conn);
      }
    }

    /** A lent object whose session ends and the next connection. If no other object was free or came back, the next
        connection is this object, bound again, and its session begins with the buffers as the last one left them. */
    method RunLentAndAccept(conn: TcpConnection, es: seq<S.Event>, socket: Socket, loop: EventLoop, back: set<nat>)
      returns (next: TcpConnection)
      requires Valid() && Lent(conn) && AllEnabled(conn.View(), es)
      requires S.Run(conn.View(), es).phase == S.Free
      requires socket.connected && socket != conn.socket
      requires forall i | i in back :: i < |connectionPool| && Unused(connectionPool[i])
      modifies this, connectionPool, conn.ioEvent, conn.Watched(), conn.socket
      ensures Valid() && Lent(next) && next.View().phase == S.Bound
      ensures old(availIndex) == back == {} ==>
                && next == conn && availIndex == {}
                && next.View() == S.Bind(S.Run(old(conn.View()), es), loop.watcher.etMode)
    {
      RunLent(conn, es);
      next := NewConnection(socket, loop, back);
      assert old(availIndex) == back == {} ==> next.index == conn.index;
    }
  }
}
