/**
 * Hyperparameter validation of the boosting classifier that accepts the kNN losses
 * (IPythonWorkflow/uniformgradientboosting.py, MyGradientBoostingClassifier._check_params).
 *
 * The guards run in a fixed order and the first failing one raises. On the way the loss
 * object `loss_` and the initial estimator `init_` are assigned, so a later failing guard
 * leaves the earlier assignments in place. The registry of named losses and the loss
 * classes themselves belong to the boosting library and are represented symbolically.
 */
module BoostingParams {
  import opened Outcomes

  /** An object offered as the initial estimator, with the attributes the check looks for. */
  datatype Estimator = Estimator(name: string, hasFit: bool, hasPredict: bool)

  /** The `loss` hyperparameter: a loss object (such as a kNN loss) or the name of a registered loss. */
  datatype LossSpec = CustomLoss(name: string) | NamedLoss(name: string)

  /** The loss object `loss_` that validation settles on. */
  datatype ResolvedLoss =
    | Custom(name: string)
    | BinomialDeviance(nClasses: nat)
    | MultinomialDeviance(nClasses: nat)
    | Registered(name: string, nClasses: nat)
    | RegisteredWithAlpha(name: string, nClasses: nat, alpha: real)

  /** The initial estimator `init_`: the one supplied, or the resolved loss's own default. */
  datatype InitEstimator = Supplied(estimator: Estimator) | DefaultOf(loss: ResolvedLoss)

  datatype ParamError =
    | NonPositiveEstimators
    | NonPositiveLearningRate
    | UnsupportedLoss(name: string)
    | SubsampleOutOfRange
    | InvalidInit
    | AlphaOutOfRange

  datatype Params = Params(
    nEstimators: int,
    learningRate: real,
    loss: LossSpec,
    subsample: real,
    init: Option<Estimator>,
    alpha: real,
    nClasses: nat,          // len(classes_), equal to n_classes_
    registry: set<string>)  // the keys of the library's loss registry

  /** What one validation run does: the error it raises, and what it assigns to `loss_` and `init_`. */
  datatype Outcome = Outcome(error: Option<ParamError>, lossAssigned: Option<ResolvedLoss>, initAssigned: Option<InitEstimator>)

  /** Position of each guard in the checking order. */
  function Rank(e: ParamError): nat
  {
    match e
    case NonPositiveEstimators => 0
    case NonPositiveLearningRate => 1
    case UnsupportedLoss(_) => 2
    case SubsampleOutOfRange => 3
    case InvalidInit => 4
    case AlphaOutOfRange => 5
  }

  /** Whether the guard at position `rank` rejects the parameters. */
  ghost predicate Fails(p: Params, rank: nat)
  {
    match rank
    case 0 => p.nEstimators <= 0
    case 1 => p.learningRate <= 0.0
    case 2 => p.loss.NamedLoss? && p.loss.name !in p.registry
    case 3 => p.subsample <= 0.0 || p.subsample > 1.0
    case 4 => p.init.Some? && !(p.init.value.hasFit && p.init.value.hasPredict)
    case 5 => !(0.0 < p.alpha < 1.0)
    case _ => false
  }

  /** The loss object for parameters whose loss passed the registry check. */
  function ResolveLoss(p: Params): (l: ResolvedLoss)
    requires !Fails(p, 2)
    ensures p.loss.CustomLoss? ==> l == Custom(p.loss.name)
    ensures p.loss == NamedLoss("deviance") ==>
      l == (if p.nClasses > 2 then MultinomialDeviance(p.nClasses) else BinomialDeviance(p.nClasses))
    ensures l.RegisteredWithAlpha? <==> p.loss.NamedLoss? && p.loss.name in {"huber", "quantile"}
  {
    match p.loss
    case CustomLoss(name) => Custom(name)
    case NamedLoss(name) =>
      if name == "deviance" then
        if p.nClasses > 2 then MultinomialDeviance(p.nClasses) else BinomialDeviance(p.nClasses)
      else if name == "huber" || name == "quantile" then RegisteredWithAlpha(name, p.nClasses, p.alpha)
      else Registered(name, p.nClasses)
  }

  /**
   * One run of the checks. The first failing guard, in the order of Rank, is the error
   * raised; with no failing guard there is no error. `loss_` is assigned exactly when the
   * first three guards pass, and `init_` exactly when the first five pass.
   */
  function Validate(p: Params): (o: Outcome)
    ensures forall e :: o.error == Some(e) <==>
      (Fails(p, Rank(e)) && (forall q: nat :: q < Rank(e) ==> !Fails(p, q)) && (e.UnsupportedLoss? ==> e.name == p.loss.name))
    ensures o.error == None <==> forall q: nat :: q < 6 ==> !Fails(p, q)
    ensures o.lossAssigned.Some? <==> !Fails(p, 0) && !Fails(p, 1) && !Fails(p, 2)
    ensures o.lossAssigned.Some? ==> o.lossAssigned.value == ResolveLoss(p)
    ensures o.initAssigned.Some? <==> o.lossAssigned.Some? && !Fails(p, 3) && !Fails(p, 4)
    ensures o.initAssigned.Some? ==>
      (o.initAssigned.value == match p.init case Some(est) => Supplied(est) case None => DefaultOf(o.lossAssigned.value))
  {
    if p.nEstimators <= 0 then Outcome(Some(NonPositiveEstimators), None, None)
    else if p.learningRate <= 0.0 then Outcome(Some(NonPositiveLearningRate), None, None)
    else if p.loss.NamedLoss? && p.loss.name !in p.registry then Outcome(Some(UnsupportedLoss(p.loss.name)), None, None)
    else
      var l := ResolveLoss(p);
      if p.subsample <= 0.0 || p.subsample > 1.0 then Outcome(Some(SubsampleOutOfRange), Some(l), None)
      else if p.init.Some? && !(p.init.value.hasFit && p.init.value.hasPredict) then Outcome(Some(InvalidInit), Some(l), None)
      else
        var i := match p.init case Some(est) => Supplied(est) case None => DefaultOf(l);
        if !(0.0 < p.alpha < 1.0) then Outcome(Some(AlphaOutOfRange), Some(l), Some(i))
        else Outcome(None, Some(l), Some(i))
  }

  /** The classifier's hyperparameters and the attributes `_check_params` assigns. */
  class Classifier {
    const params: Params
    var loss_: Option<ResolvedLoss>
    var init_: Option<InitEstimator>

    constructor (params: Params)
      ensures this.params == params && loss_ == None && init_ == None
    {
      this.params := params;
      loss_ := None;
      init_ := None;
    }

    /** `_check_params`: raises the first failing guard; assigns `loss_` and `init_` on the way. */
    method CheckParams() returns (error: Option<ParamError>)
      modifies this
      ensures error == Validate(params).error
      ensures loss_ == if Validate(params).lossAssigned.Some? then Validate(params).lossAssigned else old(loss_)
      ensures init_ == if Validate(params).initAssigned.Some? then Validate(params).initAssigned else old(init_)
    {
      var p := params;
      if p.nEstimators <= 0 {
        return Some(NonPositiveEstimators);
      }
      if p.learningRate <= 0.0 {
        return Some(NonPositiveLearningRate);
      }
      match p.loss {
        case CustomLoss(name) =>
          loss_ := Some(Custom(name));
        case NamedLoss(name) =>
          if name !in p.registry {
            return Some(UnsupportedLoss(name));
          }
          var resolved;
          if name == "deviance" {
            resolved := if p.nClasses > 2 then MultinomialDeviance(p.nClasses) else BinomialDeviance(p.nClasses);
          } else if name == "huber" || name == "quantile" {
            resolved := RegisteredWithAlpha(name, p.nClasses, p.alpha);
          } else {
            resolved := Registered(name, p.nClasses);
          }
          loss_ := Some(resolved);
      }
      if p.subsample <= 0.0 || p.subsample > 1.0 {
        return Some(SubsampleOutOfRange);
      }
      match p.init {
        case Some(est) =>
          if !(est.hasFit && est.hasPredict) {
            return Some(InvalidInit);
          }
          init_ := Some(Supplied(est));
        case None =>
          init_ := Some(DefaultOf(loss_.value));
      }
      if !(0.0 < p.alpha < 1.0) {
        return Some(AlphaOutOfRange);
      }
      return None;
    }
  }
}
