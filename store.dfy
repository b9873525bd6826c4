/** The database the import writes through the ORM: the Movie table and the MovieUser
    table, changed one save at a time. */
module Store {
  import opened Models

  class Database {
    /** The Movie table in primary-key order. */
    var movies: seq<Movie>
    /** The MovieUser table, keyed by its unique (user, movie) pair. */
    var relations: map<RelationKey, MovieUser>

    function Tables(): Tables
      reads this
    {
      Models.Tables(movies, relations)
    }

    constructor (t: Tables)
      ensures Tables() == t
    {
      movies := t.movies;
      relations := t.relations;
    }

    /** `Movie.objects.create(...)`: the new row takes the next primary key. */
    method CreateMovie(m: Movie) returns (id: MovieId)
      modifies this
      ensures id == |old(movies)| && movies == old(movies) + [m]
      ensures relations == old(relations)
    {
      id := |movies|;
      movies := movies + [m];
    }

    /** `movie.title = title; movie.save(update_fields=["title"])` */
    method SaveTitle(id: MovieId, title: string)
      requires id < |movies|
      modifies this
      ensures movies == old(movies)[id := old(movies)[id].(title := title)]
      ensures relations == old(relations)
    {
      movies := movies[id := movies[id].(title := title)];
    }

    /** The create half of `MovieUser.objects.get_or_create`. */
    method CreateRelation(key: RelationKey)
      requires key !in relations
      modifies this
      ensures relations == old(relations)[key := NEW_MOVIE_USER]
      ensures movies == old(movies)
    {
      relations := relations[key := NEW_MOVIE_USER];
    }

    /** `mu.save()` */
    method SaveRelation(key: RelationKey, mu: MovieUser)
      requires key in relations
      modifies this
      ensures relations == old(relations)[key := mu]
      ensures movies == old(movies)
    {
      relations := relations[key := mu];
    }

    /** The rollback of `transaction.atomic()`: the tables as they were when the block
        began. */
    method Restore(t: Tables)
      modifies this
      ensures Tables() == t
    {
      movies := t.movies;
      relations := t.relations;
    }
  }
}
