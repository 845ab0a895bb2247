/** The Doctrine entities whose association methods and lifecycle hooks
    update fields in place: `User`, `Movie`, `Actor`, `Category`, `Director`
    and `Review`. Collections are sequences of references (`contains` is
    reference identity); timestamps are epoch seconds, with the clock
    passed in as `now`. */
module Entities {
  import opened Wrappers
  import opened Collections
  import opened EntityRules
  import opened Text

  class User {
    var email: Option<string>
    /** The stored `roles` column, before `getRoles()` adds `ROLE_USER`. */
    var roles: seq<string>
    var plainPassword: Option<string>
    var limiter: int
    var apiKeyHash: Option<string>
    var apiKeyPrefix: Option<string>
    var apiKeyEnabled: bool
    var apiKeyCreatedAt: Option<int>
    var apiKeyLastUsedAt: Option<int>
    var twoFactorSecret: Option<string>
    var twoFactorEnabled: bool
    var twoFactorBackupCodes: Option<seq<string>>
    var reviews: seq<Review>

    /** A new user: limit 100, both features off, every credential field null. */
    constructor ()
      ensures email.None? && roles == [] && plainPassword.None? && limiter == 100
      ensures apiKeyHash.None? && apiKeyPrefix.None? && !apiKeyEnabled
      ensures apiKeyCreatedAt.None? && apiKeyLastUsedAt.None?
      ensures twoFactorSecret.None? && !twoFactorEnabled && twoFactorBackupCodes.None?
      ensures reviews == []
    {
      email, roles, plainPassword, limiter := None, [], None, 100;
      apiKeyHash, apiKeyPrefix, apiKeyEnabled := None, None, false;
      apiKeyCreatedAt, apiKeyLastUsedAt := None, None;
      twoFactorSecret, twoFactorEnabled, twoFactorBackupCodes := None, false, None;
      reviews := [];
    }

    /** `getRoles()` */
    function Roles(): (r: seq<string>)
      reads this
      ensures RoleUser in r
      ensures forall role :: role in roles ==> role in r
    {
      EffectiveRolesSpec(roles);
      EffectiveRoles(roles)
    }

    /** `getUserIdentifier()` */
    function Identifier(): (id: string)
      reads this
      ensures email.Some? ==> id == email.value
      ensures email.None? ==> id == ""
    {
      UserIdentifier(email)
    }

    /** The `Length(exactly: ...)` constraints: a digest that is set has 64
        characters and a prefix that is set has 16. */
    predicate ApiKeyFieldsValid()
      reads this
    {
      (apiKeyHash.Some? ==> |apiKeyHash.value| == 64)
      && (apiKeyPrefix.Some? ==> |apiKeyPrefix.value| == 16)
    }

    /** Every review listed here points back to this user, once. */
    ghost predicate ReviewsLinked()
      reads this, set r | r in reviews
    {
      NoDuplicates(reviews) && forall r :: r in reviews ==> r.user == this
    }

    method SetApiKeyHash(hash: Option<string>)
      modifies this`apiKeyHash
      ensures apiKeyHash == hash
    {
      apiKeyHash := hash;
    }

    method SetApiKeyPrefix(prefix: Option<string>)
      modifies this`apiKeyPrefix
      ensures apiKeyPrefix == prefix
    {
      apiKeyPrefix := prefix;
    }

    method SetApiKeyEnabled(enabled: bool)
      modifies this`apiKeyEnabled
      ensures apiKeyEnabled == enabled
    {
      apiKeyEnabled := enabled;
    }

    method SetApiKeyCreatedAt(at: Option<int>)
      modifies this`apiKeyCreatedAt
      ensures apiKeyCreatedAt == at
    {
      apiKeyCreatedAt := at;
    }

    /** `updateApiKeyLastUsedAt()`: only the last-used stamp changes. */
    method UpdateApiKeyLastUsedAt(now: int)
      modifies this`apiKeyLastUsedAt
      ensures apiKeyLastUsedAt == Some(now)
    {
      apiKeyLastUsedAt := Some(now);
    }

    method SetTwoFactorSecret(secret: Option<string>)
      modifies this`twoFactorSecret
      ensures twoFactorSecret == secret
    {
      twoFactorSecret := secret;
    }

    method SetTwoFactorEnabled(enabled: bool)
      modifies this`twoFactorEnabled
      ensures twoFactorEnabled == enabled
    {
      twoFactorEnabled := enabled;
    }

    method SetTwoFactorBackupCodes(codes: Option<seq<string>>)
      modifies this`twoFactorBackupCodes
      ensures twoFactorBackupCodes == codes
    {
      twoFactorBackupCodes := codes;
    }

    /** `eraseCredentials()`: only the plain password is cleared. */
    method EraseCredentials()
      modifies this`plainPassword
      ensures plainPassword.None?
    {
      plainPassword := None;
    }

    /** `addReview()`: a review not yet listed is appended and pointed at
        this user; a listed one changes nothing. */
    method AddReview(review: Review)
      modifies this`reviews, review`user
      ensures reviews == Added(old(reviews), review)
      ensures review.user == if review in old(reviews) then old(review.user) else this
      ensures old(ReviewsLinked()) ==> ReviewsLinked()
    {
      if review !in reviews {
        reviews := reviews + [review];
        review.SetUser(this);
      }
    }

    /** `removeReview()`: the review is taken out, and its `user` is cleared
        only if it was listed and still points here. */
    method RemoveReview(review: Review)
      modifies this`reviews, review`user
      ensures reviews == Removed(old(reviews), review)
      ensures review.user == if review in old(reviews) && old(review.user) == this then null else old(review.user)
      ensures old(ReviewsLinked()) ==> ReviewsLinked() && review !in reviews
    {
      var removed := review in reviews;
      if removed {
        reviews := Removed(reviews, review);
      }
      if removed && review.user == this {
        review.SetUser(null);
      }
      if old(ReviewsLinked()) {
        RemovedFromNoDuplicates(old(reviews), review);
      }
    }
  }

  class Review {
    var comment: Option<string>
    var rating: Option<int>
    var movie: Movie?
    var user: User?
    var createdAt: Option<int>
    var updatedAt: Option<int>

    constructor ()
      ensures comment.None? && rating.None? && movie == null && user == null
      ensures createdAt.None? && updatedAt.None?
    {
      comment, rating, movie, user := None, None, null, null;
      createdAt, updatedAt := None, None;
    }

    /** The validation messages this review currently raises. */
    function Violations(): (v: seq<string>)
      reads this
      ensures v == [] <==> !IsBlank(comment) && rating.Some? && 0 <= rating.value <= 5 && movie != null
    {
      ReviewViolations(comment, rating, movie != null)
    }

    method SetComment(c: string)
      modifies this`comment
      ensures comment == Some(c)
    {
      comment := Some(c);
    }

    method SetRating(r: int)
      modifies this`rating
      ensures rating == Some(r)
    {
      rating := Some(r);
    }

    /** `setMovie()` stores exactly what it is given, null included. */
    method SetMovie(m: Movie?)
      modifies this`movie
      ensures movie == m
    {
      movie := m;
    }

    /** `setUser()` stores exactly what it is given, null included. */
    method SetUser(u: User?)
      modifies this`user
      ensures user == u
    {
      user := u;
    }

    /** The `PrePersist` hook: unlike `Movie` and `Actor`, always overwrites. */
    method SetCreatedAt(now: int)
      modifies this`createdAt
      ensures createdAt == Some(now)
    {
      createdAt := Some(now);
    }

    /** The `PreUpdate` hook: stamps `updatedAt`, leaves `createdAt` alone. */
    method SetUpdatedAt(now: int)
      modifies this`updatedAt
      ensures updatedAt == Some(now) && createdAt == old(createdAt)
    {
      updatedAt := Some(now);
    }
  }

  class Movie {
    var createdAt: Option<int>
    var categories: seq<Category>
    var actors: seq<Actor>
    var reviews: seq<Review>
    var director: Director?

    constructor ()
      ensures createdAt.None? && categories == [] && actors == [] && reviews == [] && director == null
    {
      createdAt, categories, actors, reviews, director := None, [], [], [], null;
    }

    /** Every actor listed here lists this movie, and none is listed twice. */
    ghost predicate ActorsLinked()
      reads this, set a | a in actors
    {
      NoDuplicates(actors) && forall a :: a in actors ==> this in a.movies
    }

    /** Every category listed here lists this movie, and none is listed twice. */
    ghost predicate CategoriesLinked()
      reads this, set c | c in categories
    {
      NoDuplicates(categories) && forall c :: c in categories ==> this in c.movies
    }

    /** Every review listed here points back to this movie, once. */
    ghost predicate ReviewsLinked()
      reads this, set r | r in reviews
    {
      NoDuplicates(reviews) && forall r :: r in reviews ==> r.movie == this
    }

    /** The `PrePersist` hook: stamps `createdAt` only when it is unset. */
    method SetCreatedAt(now: int)
      modifies this`createdAt
      ensures createdAt == StampOnce(old(createdAt), now)
      ensures createdAt.Some? && (old(createdAt).Some? ==> createdAt == old(createdAt))
    {
      if createdAt.None? {
        createdAt := Some(now);
      }
    }

    /** The `PreUpdate` hook: the same set-once stamp. */
    method EnsureCreatedAtNotNull(now: int)
      modifies this`createdAt
      ensures createdAt == StampOnce(old(createdAt), now)
      ensures createdAt.Some? && (old(createdAt).Some? ==> createdAt == old(createdAt))
    {
      if createdAt.None? {
        createdAt := Some(now);
      }
    }

    method SetDirector(d: Director?)
      modifies this`director
      ensures director == d
    {
      director := d;
    }

    /** `addCategory()`: appends a new category and registers this movie
        with it; a listed one changes nothing. */
    method AddCategory(category: Category)
      modifies this`categories, category`movies
      ensures categories == Added(old(categories), category)
      ensures category.movies == if category in old(categories) then old(category.movies) else Added(old(category.movies), this)
      ensures old(CategoriesLinked()) ==> CategoriesLinked()
    {
      if category !in categories {
        categories := categories + [category];
        category.AddMovie(this);
      }
    }

    /** `removeCategory()`: when the category was listed, takes it out and
        unregisters this movie from it. */
    method RemoveCategory(category: Category)
      modifies this`categories, category`movies
      ensures categories == Removed(old(categories), category)
      ensures category.movies == if category in old(categories) then Removed(old(category.movies), this) else old(category.movies)
      ensures old(CategoriesLinked()) ==> CategoriesLinked() && category !in categories
    {
      var removed := category in categories;
      if removed {
        categories := Removed(categories, category);
        category.RemoveMovie(this);
      }
      if old(CategoriesLinked()) {
        RemovedFromNoDuplicates(old(categories), category);
      }
    }

    /** `addActor()`: appends a new actor and registers this movie with it;
        a listed one changes nothing. */
    method AddActor(actor: Actor)
      modifies this`actors, actor`movies
      ensures actors == Added(old(actors), actor)
      ensures actor.movies == if actor in old(actors) then old(actor.movies) else Added(old(actor.movies), this)
      ensures actor in actors && (actor !in old(actors) ==> this in actor.movies)
      ensures old(ActorsLinked()) ==> ActorsLinked()
    {
      if actor !in actors {
        actors := actors + [actor];
        actor.AddMovie(this);
      }
    }

    /** `removeActor()`: when the actor was listed, takes it out and
        unregisters this movie from it; otherwise nothing changes. */
    method RemoveActor(actor: Actor)
      modifies this`actors, actor`movies
      ensures actors == Removed(old(actors), actor)
      ensures actor.movies == if actor in old(actors) then Removed(old(actor.movies), this) else old(actor.movies)
      ensures old(ActorsLinked()) ==> ActorsLinked() && actor !in actors
    {
      var removed := actor in actors;
      if removed {
        actors := Removed(actors, actor);
        actor.RemoveMovie(this);
      }
      if old(ActorsLinked()) {
        RemovedFromNoDuplicates(old(actors), actor);
      }
    }

    /** `addReview()`: a review not yet listed is appended and pointed at
        this movie; a listed one changes nothing. */
    method AddReview(review: Review)
      modifies this`reviews, review`movie
      ensures reviews == Added(old(reviews), review)
      ensures review.movie == if review in old(reviews) then old(review.movie) else this
      ensures old(ReviewsLinked()) ==> ReviewsLinked()
    {
      if review !in reviews {
        reviews := reviews + [review];
        review.SetMovie(this);
      }
    }

    /** `removeReview()`: the review is taken out, and its `movie` is
        cleared only if it was listed and still points here. */
    method RemoveReview(review: Review)
      modifies this`reviews, review`movie
      ensures reviews == Removed(old(reviews), review)
      ensures review.movie == if review in old(reviews) && old(review.movie) == this then null else old(review.movie)
      ensures old(ReviewsLinked()) ==> ReviewsLinked() && review !in reviews
    {
      var removed := review in reviews;
      if removed {
        reviews := Removed(reviews, review);
      }
      if removed && review.movie == this {
        review.SetMovie(null);
      }
      if old(ReviewsLinked()) {
        RemovedFromNoDuplicates(old(reviews), review);
      }
    }

    /** The accumulating loop of `getAverageRating()`, up to the division:
        null without reviews, otherwise the ratings' total (a null rating
        adds 0) over the number of reviews. */
    method AverageRating() returns (avg: Option<(int, nat)>)
      ensures avg.None? <==> reviews == []
      ensures avg.Some? ==> avg.value == (RatingTotal(reviews), |reviews|)
    {
      if reviews == [] {
        return None;
      }
      var total := 0;
      var i := 0;
      while i < |reviews|
        invariant 0 <= i <= |reviews|
        invariant total == RatingTotal(reviews[..i])
      {
        assert reviews[..i + 1][..i] == reviews[..i];
        total := total + reviews[i].rating.GetOr(0);
        i := i + 1;
      }
      assert reviews[..i] == reviews;
      return Some((total, |reviews|));
    }
  }

  /** The sum of the reviews' ratings, a null rating counting as 0. */
  function RatingTotal(rs: seq<Review>): (total: int)
    reads set r | r in rs
    ensures (forall r :: r in rs ==> r.rating.GetOr(0) >= 0) ==> total >= 0
  {
    if rs == [] then 0 else RatingTotal(rs[..|rs| - 1]) + rs[|rs| - 1].rating.GetOr(0)
  }

  /** Ratings that pass validation (each in 0..5) total between 0 and 5 per
      review, so the average `getAverageRating()` divides out is in 0..5. */
  lemma {:induction false} RatingTotalBounds(rs: seq<Review>)
    requires forall r :: r in rs ==> r.rating.Some? && 0 <= r.rating.value <= 5
    ensures 0 <= RatingTotal(rs) <= 5 * |rs|
  {
    if rs != [] {
      assert forall r :: r in rs[..|rs| - 1] ==> r in rs;
      RatingTotalBounds(rs[..|rs| - 1]);
    }
  }

  class Actor {
    var lastname: Option<string>
    var firstname: Option<string>
    var dob: Option<Date>
    var dod: Option<Date>
    var movies: seq<Movie>
    var createdAt: Option<int>

    constructor ()
      ensures lastname.None? && firstname.None? && dob.None? && dod.None?
      ensures movies == [] && createdAt.None?
    {
      lastname, firstname, dob, dod := None, None, None, None;
      movies, createdAt := [], None;
    }

    /** `getFullName()` */
    function FullName(): (name: string)
      reads this
      ensures name != [] ==> !IsTrimmed(name[0]) && !IsTrimmed(name[|name| - 1])
    {
      EntityRules.FullName(lastname, firstname)
    }

    /** `getAge()` against the given date of today. */
    function Age(today: Date): (age: Option<int>)
      reads this
      ensures age.None? <==> dob.None?
      ensures age.Some? ==> age.value >= 0
    {
      EntityRules.Age(dob, dod, today)
    }

    /** `addMovie()`: the owning side only appends; it does not touch the
        movie's `actors`. */
    method AddMovie(movie: Movie)
      modifies this`movies
      ensures movies == Added(old(movies), movie)
    {
      if movie !in movies {
        movies := movies + [movie];
      }
    }

    /** `removeMovie()`: removes the first occurrence; a no-op when absent. */
    method RemoveMovie(movie: Movie)
      modifies this`movies
      ensures movies == Removed(old(movies), movie)
    {
      movies := Removed(movies, movie);
    }

    /** The `PrePersist` hook: stamps `createdAt` only when it is unset. */
    method SetCreatedAt(now: int)
      modifies this`createdAt
      ensures createdAt == StampOnce(old(createdAt), now)
      ensures createdAt.Some? && (old(createdAt).Some? ==> createdAt == old(createdAt))
    {
      if createdAt.None? {
        createdAt := Some(now);
      }
    }

    /** The `PreUpdate` hook: the same set-once stamp. */
    method EnsureCreatedAtNotNull(now: int)
      modifies this`createdAt
      ensures createdAt == StampOnce(old(createdAt), now)
      ensures createdAt.Some? && (old(createdAt).Some? ==> createdAt == old(createdAt))
    {
      if createdAt.None? {
        createdAt := Some(now);
      }
    }
  }

  /** The owning side of the movie-category association. Its source is not
      part of this model; it is taken to follow the same generated pattern
      as `Actor`'s `movies`. */
  class Category {
    var movies: seq<Movie>

    constructor ()
      ensures movies == []
    {
      movies := [];
    }

    method AddMovie(movie: Movie)
      modifies this`movies
      ensures movies == Added(old(movies), movie)
    {
      if movie !in movies {
        movies := movies + [movie];
      }
    }

    method RemoveMovie(movie: Movie)
      modifies this`movies
      ensures movies == Removed(old(movies), movie)
    {
      movies := Removed(movies, movie);
    }
  }

  class Director {
    var movies: seq<Movie>

    constructor ()
      ensures movies == []
    {
      movies := [];
    }

    /** Every movie listed here names this director, once. */
    ghost predicate MoviesLinked()
      reads this, set m | m in movies
    {
      NoDuplicates(movies) && forall m :: m in movies ==> m.director == this
    }

    /** `addMovie()`: a new movie is appended and given this director; an
        already listed movie changes nothing, not even its `director`. */
    method AddMovie(movie: Movie)
      modifies this`movies, movie`director
      ensures movies == Added(old(movies), movie)
      ensures movie.director == if movie in old(movies) then old(movie.director) else this
      ensures old(MoviesLinked()) ==> MoviesLinked()
    {
      if movie !in movies {
        movies := movies + [movie];
        movie.SetDirector(this);
      }
    }

    /** `removeMovie()`: the movie is taken out, and its `director` is
        cleared only if it was listed and still names this director; an
        absent movie changes nothing. */
    method RemoveMovie(movie: Movie)
      modifies this`movies, movie`director
      ensures movies == Removed(old(movies), movie)
      ensures movie.director == if movie in old(movies) && old(movie.director) == this then null else old(movie.director)
      ensures old(MoviesLinked()) ==> MoviesLinked() && movie !in movies
    {
      var removed := movie in movies;
      if removed {
        movies := Removed(movies, movie);
      }
      if removed && movie.director == this {
        movie.SetDirector(null);
      }
      if old(MoviesLinked()) {
        RemovedFromNoDuplicates(old(movies), movie);
      }
    }
  }
}
