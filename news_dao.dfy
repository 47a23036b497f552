/**
 * The `news` favourites table behind `NewsDao` (data/cache/NewsDao.kt).
 *
 * The table is held as its rows in storage order. The primary key is the
 * title, so the table invariant is that no two rows share a title. An insert
 * uses the REPLACE conflict strategy: a row with the same title is deleted and
 * the new row is stored after the others. A delete removes the row whose
 * primary key equals the given entity's title, whatever its other fields.
 */
module Dao {
  import opened Wrappers
  import opened Entities

  /** The primary-key constraint: titles are pairwise distinct. */
  predicate UniqueTitles(rows: seq<NewsEntity>) {
    forall i, j :: 0 <= i < j < |rows| ==> rows[i].title != rows[j].title
  }

  /** `SELECT * FROM news WHERE title = :title`, as the row it finds. */
  function Find(rows: seq<NewsEntity>, title: string): (r: Option<NewsEntity>)
    ensures r.Some? ==> r.value in rows && r.value.title == title
    ensures r.None? <==> forall e :: e in rows ==> e.title != title
  {
    if rows == [] then None
    else if rows[0].title == title then Some(rows[0])
    else Find(rows[1..], title)
  }

  /** The rows that remain once the row keyed by `title` is deleted. */
  function Without(rows: seq<NewsEntity>, title: string): (r: seq<NewsEntity>)
    ensures forall e :: e in r <==> e in rows && e.title != title
    ensures |r| <= |rows|
    ensures (forall e :: e in rows ==> e.title != title) ==> r == rows
  {
    if rows == [] then []
    else if rows[0].title == title then Without(rows[1..], title)
    else [rows[0]] + Without(rows[1..], title)
  }

  /** `INSERT OR REPLACE`: the conflicting row goes, the new row is stored last. */
  function Upsert(rows: seq<NewsEntity>, e: NewsEntity): (r: seq<NewsEntity>)
    ensures |r| > 0 && r[|r| - 1] == e
    ensures forall x :: x in r <==> x == e || (x in rows && x.title != e.title)
    ensures |r| <= |rows| + 1
  {
    Without(rows, e.title) + [e]
  }

  /** Deleting by key keeps the primary-key constraint. */
  lemma {:induction false} WithoutKeepsUnique(rows: seq<NewsEntity>, title: string)
    requires UniqueTitles(rows)
    ensures UniqueTitles(Without(rows, title))
  {
    if rows != [] {
      var tail := rows[1..];
      assert UniqueTitles(tail) by {
        forall i, j | 0 <= i < j < |tail| ensures tail[i].title != tail[j].title {
          assert tail[i] == rows[i + 1] && tail[j] == rows[j + 1];
        }
      }
      WithoutKeepsUnique(tail, title);
      if rows[0].title != title {
        var rest := Without(tail, title);
        forall e | e in rest ensures e.title != rows[0].title {
          var k :| 0 <= k < |tail| && tail[k] == e;
          assert tail[k] == rows[k + 1];
        }
        ConsKeepsUnique(rows[0], rest);
      }
    }
  }

  /** A row whose title no other row has can go in front. */
  lemma ConsKeepsUnique(head: NewsEntity, rest: seq<NewsEntity>)
    requires UniqueTitles(rest)
    requires forall e :: e in rest ==> e.title != head.title
    ensures UniqueTitles([head] + rest)
  {
    var all := [head] + rest;
    forall i, j | 0 <= i < j < |all| ensures all[i].title != all[j].title {
      assert all[j] == rest[j - 1];
      if i > 0 {
        assert all[i] == rest[i - 1];
      } else {
        assert rest[j - 1] in rest;
      }
    }
  }

  /** After an insert the table holds exactly one row with the new title: the new entity itself
      (last write wins), and every other title finds what it found before. */
  lemma UpsertStores(rows: seq<NewsEntity>, e: NewsEntity)
    requires UniqueTitles(rows)
    ensures UniqueTitles(Upsert(rows, e))
    ensures Find(Upsert(rows, e), e.title) == Some(e)
    ensures forall t :: t != e.title ==> Find(Upsert(rows, e), t) == Find(rows, t)
  {
    WithoutKeepsUnique(rows, e.title);
    var rest := Without(rows, e.title);
    forall i, j | 0 <= i < j < |rest + [e]| ensures (rest + [e])[i].title != (rest + [e])[j].title {
      if j == |rest| {
        assert rest[i] in rest;
      }
    }
    FindAppend(rest, e, e.title);
    forall t | t != e.title ensures Find(rest + [e], t) == Find(rows, t) {
      FindAppend(rest, e, t);
      FindWithout(rows, e.title, t);
    }
  }

  /** After a delete no row has the title, and every other title finds what it found before. */
  lemma WithoutRemoves(rows: seq<NewsEntity>, title: string)
    requires UniqueTitles(rows)
    ensures Find(Without(rows, title), title).None?
    ensures forall t :: t != title ==> Find(Without(rows, title), t) == Find(rows, t)
  {
    forall t | t != title ensures Find(Without(rows, title), t) == Find(rows, t) {
      FindWithout(rows, title, t);
    }
  }

  lemma {:induction false} FindWithout(rows: seq<NewsEntity>, title: string, t: string)
    requires t != title
    ensures Find(Without(rows, title), t) == Find(rows, t)
  {
    if rows != [] {
      FindWithout(rows[1..], title, t);
      if rows[0].title != title {
        assert ([rows[0]] + Without(rows[1..], title))[1..] == Without(rows[1..], title);
      }
    }
  }

  lemma {:induction false} FindAppend(rows: seq<NewsEntity>, e: NewsEntity, t: string)
    requires forall r :: r in rows ==> r.title != e.title
    ensures Find(rows + [e], t) == if t == e.title then Some(e) else Find(rows, t)
  {
    if rows == [] {
      assert [e][1..] == [];
    } else {
      assert (rows + [e])[1..] == rows[1..] + [e];
      FindAppend(rows[1..], e, t);
    }
  }

  /** Inserting the same entity twice leaves the table as one insert does. */
  lemma UpsertIdempotent(rows: seq<NewsEntity>, e: NewsEntity)
    ensures Upsert(Upsert(rows, e), e) == Upsert(rows, e)
  {
    var rest := Without(rows, e.title);
    WithoutAppendSame(rest, e);
  }

  lemma {:induction false} WithoutAppendSame(rows: seq<NewsEntity>, e: NewsEntity)
    requires forall r :: r in rows ==> r.title != e.title
    ensures Without(rows + [e], e.title) == rows
  {
    if rows == [] {
      assert [e][1..] == [];
    } else {
      var tail := rows[1..] + [e];
      assert (rows + [e])[1..] == tail;
      assert rows[0] in rows;
      WithoutAppendSame(rows[1..], e);
      calc {
        Without(rows + [e], e.title);
        [rows[0]] + Without(tail, e.title);
        [rows[0]] + rows[1..];
        rows;
      }
    }
  }

  class NewsDao {
    /** The rows of the `news` table, in storage order. */
    var rows: seq<NewsEntity>

    ghost predicate Valid()
      reads this
    {
      UniqueTitles(rows)
    }

    /** A freshly created, empty table. */
    constructor ()
      ensures Valid() && rows == []
    {
      rows := [];
    }

    /** `@Insert(onConflict = REPLACE) insert(news)`. */
    method Insert(news: NewsEntity)
      requires Valid()
      modifies this
      ensures Valid()
      ensures rows == Upsert(old(rows), news)
    {
      WithoutKeepsUnique(rows, news.title);
      UpsertStores(rows, news);
      rows := Upsert(rows, news);
    }

    /** `@Delete delete(news)`: delete by primary key. */
    method Delete(news: NewsEntity)
      requires Valid()
      modifies this
      ensures Valid()
      ensures rows == Without(old(rows), Key(news))
    {
      WithoutKeepsUnique(rows, Key(news));
      rows := Without(rows, Key(news));
    }

    /** `SELECT * FROM news`, read from the current state. */
    function GetAll(): (r: seq<NewsEntity>)
      reads this
      ensures forall e :: e in r <==> e in rows
      ensures |r| == |rows|
    {
      rows
    }

    /** `SELECT EXISTS(SELECT * FROM news WHERE title = :title)`, read from the current state. */
    function IsFavorite(title: string): (r: bool)
      reads this
      ensures r <==> exists i :: 0 <= i < |rows| && rows[i].title == title
    {
      Find(rows, title).Some?
    }
  }
}
