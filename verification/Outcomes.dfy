/**
  `outcome<T>`: a tagged union that holds nothing yet, a value or an exception.

  The members of the union are objects of their own, because what can go wrong is their
  lifetime: a member that is read or destroyed while the tag does not say it is there, one
  constructed over another, one never destroyed. Those are preconditions of `Member`, and
  every operation of the union discharges them from its tag.
 */
module Outcomes {

  datatype Content<+T> = Dead | Live(v: T) | MovedFrom

  /** Storage for one member of the union. The ghost counters are its whole history. */
  class Member<T> {
    var content: Content<T>
    ghost var built: nat
    ghost var torn: nat

    ghost predicate Balanced() reads this {
      built == torn + if content.Dead? then 0 else 1
    }

    constructor ()
      ensures Balanced() && content.Dead? && built == 0
    {
      content, built, torn := Dead, 0, 0;
    }

    /** std::construct_at, from a value or from what moving one out has left. */
    method Construct(x: Content<T>)
      requires Balanced() && content.Dead? && !x.Dead?
      modifies this
      ensures Balanced() && content == x && built == old(built) + 1
    {
      content, built := x, built + 1;
    }

    /** std::move out of the member, which is left to be destroyed. */
    method Take() returns (x: Content<T>)
      requires Balanced() && !content.Dead?
      modifies this`content
      ensures Balanced() && x == old(content) && content == MovedFrom
    {
      x := content;
      content := MovedFrom;
    }

    /** std::destroy_at. */
    method Destroy()
      requires Balanced() && !content.Dead?
      modifies this`content, this`torn
      ensures Balanced() && content.Dead?
    {
      content, torn := Dead, torn + 1;
    }
  }

  datatype What = Nothing | Value | Exception

  /** What an outcome is to its owner. */
  datatype Held<+T> = Unset | Ok(v: T) | Threw(x: int)
    | SpentValue     // a value that was moved out
    | NullException  // an exception pointer that was moved out

  /** How `get` ends. */
  datatype Fetched<+T> = Returned(v: T) | Thrown(x: int)
    | Unspecified    // what is left of a value that was moved out before

  class Outcome<T> {
    var what: What
    const value: Member<T>
    const exception: Member<int>

    /** Exactly the member that the tag names is alive. */
    ghost predicate Valid()
      reads this, value, exception
    {
      && (value as object) != (exception as object)
      && value.Balanced() && exception.Balanced()
      && (what == Value <==> !value.content.Dead?)
      && (what == Exception <==> !exception.content.Dead?)
    }

    ghost function Held(): Held<T>
      reads this, value, exception
      requires Valid()
    {
      match what
      case Nothing => Unset
      case Value => if value.content.Live? then Ok(value.content.v) else SpentValue
      case Exception => if exception.content.Live? then Threw(exception.content.v) else NullException
    }

    /** Members constructed so far, and those of them destroyed again. */
    ghost function Built(): nat reads value, exception { value.built + exception.built }
    ghost function Torn(): nat reads value, exception { value.torn + exception.torn }

    constructor ()
      ensures Valid() && Held() == Unset && fresh(value) && fresh(exception) && Built() == 0
    {
      what := Nothing;
      value := new Member<T>();
      exception := new Member<int>();
    }

    method SetValue(x: T)
      requires Valid() && what == Nothing
      modifies this, value
      ensures Valid() && Held() == Ok(x) && Built() == old(Built()) + 1
    {
      value.Construct(Live(x));
      what := Value;
    }

    method SetException(x: int)
      requires Valid() && what == Nothing
      modifies this, exception
      ensures Valid() && Held() == Threw(x) && Built() == old(Built()) + 1
    {
      exception.Construct(Live(x));
      what := Exception;
    }

    /** A value is moved out, an exception is rethrown and stays. The tag does not change:
        whatever was constructed is still there to be destroyed. An outcome that was not set
        aborts, and rethrowing a null exception pointer is undefined. */
    method Get() returns (r: Fetched<T>)
      requires Valid() && what != Nothing && Held() != NullException
      modifies value
      ensures Valid() && Built() == old(Built())
      ensures match old(Held())
              case Ok(v) => r == Returned(v) && Held() == SpentValue
              case Threw(x) => r == Thrown(x) && Held() == old(Held())
              case SpentValue => r == Unspecified && Held() == SpentValue
              case _ => false
    {
      if what == Value {
        var v := value.Take();
        r := if v.Live? then Returned(v.v) else Unspecified;
      } else {
        r := Thrown(exception.content.v);
      }
    }

    /** The destructor: the member that was alive, if any, is destroyed, no other one is. */
    method Destroy()
      requires Valid()
      modifies this, value, exception
      ensures Valid() && Held() == Unset
      ensures Built() == old(Built()) && Torn() == Built()
    {
      match what {
        case Nothing => return;
        case Value => value.Destroy();
        case Exception => exception.Destroy();
      }
      what := Nothing;
    }

    /** Move construction does not initialise the new tag before it looks at the other one:
        `junk` is what the storage happens to hold. The new outcome is a proper one exactly
        when its tag came out the same, and then it holds what the other one held; the other
        one keeps its tag and a moved-from member. */
    constructor Move(other: Outcome<T>, junk: What)
      requires other.Valid()
      modifies other.value, other.exception
      ensures what == TagAfterMove(other.what, junk)
      ensures Valid() <==> what == other.what
      ensures Valid() ==> Held() == old(other.Held())
      ensures other.what == Nothing ==> value.content.Dead? && exception.content.Dead?
      ensures fresh(value) && fresh(exception)
      ensures Built() == if other.what == Nothing then 0 else 1
      ensures other.Valid() && other.what == old(other.what) && other.Built() == old(other.Built())
      ensures match other.what
              case Nothing => other.Held() == Unset
              case Value => other.Held() == SpentValue
              case Exception => other.Held() == NullException
    {
      what := junk;
      value := new Member<T>();
      exception := new Member<int>();
      new;
      match other.what {
        case Nothing =>
        case Value =>
          var v := other.value.Take();
          value.Construct(v);
          what := Value;
        case Exception =>
          var x := other.exception.Take();
          exception.Construct(x);
          what := Exception;
      }
    }
  }

  /** The tag of a moved-into outcome; nothing writes it when the other one was not set. */
  function TagAfterMove(from: What, junk: What): What {
    if from == Nothing then junk else from
  }

  /** Moving is right whatever the storage held, if and only if the outcome was set. */
  lemma MoveExact(from: What)
    ensures (forall junk :: TagAfterMove(from, junk) == from) <==> from != Nothing
  {
    assert TagAfterMove(Nothing, Value) == Value;
  }

  /** An unset outcome, moved: the new one says it holds a value, and its destructor would
      destroy a member that was never constructed. */
  method UnsetOutcomeMoved() returns (moved: Outcome<int>)
    ensures moved.what == Value && moved.value.content.Dead? && !moved.Valid()
  {
    var unset := new Outcome<int>();
    moved := new Outcome<int>.Move(unset, Value);
  }

  /** What a completion handler may be called with: plain results, or results after a
      leading error code or exception pointer. */
  datatype Arguments<+T> = Results(v: T) | WithCode(code: int, v: T) | WithPointer(pointer: int, v: T)

  /** What awaiting the operation gives. A code or a pointer of 0 is no error. */
  function Settled<T>(args: Arguments<T>): Held<T> {
    match args
    case Results(v) => Ok(v)
    case WithCode(c, v) => if c != 0 then Threw(c) else Ok(v)
    case WithPointer(p, v) => if p != 0 then Threw(p) else Ok(v)
  }

  /** Awaiting throws e exactly if a leading code or pointer is e and no success, and gives v
      exactly if v is the value argument and there is no leading one or it is a success. */
  lemma SettledExact<T>(args: Arguments<T>)
    ensures forall e :: Settled(args) == Threw(e) <==>
      e != 0 && (args == WithCode(e, args.v) || args == WithPointer(e, args.v))
    ensures forall v :: Settled(args) == Ok(v) <==>
      args == Results(v) || args == WithCode(0, v) || args == WithPointer(0, v)
  {
  }
}
