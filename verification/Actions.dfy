/** The recommendation actions and the answers to them. */
module Actions {

  datatype Action = Schedule | Shutdown | ScaleUp | ScaleDown | ChangeShape | Split | NoAction | Error

  datatype FeedbackStatus = Applied | DontRecommend | NoAnswer | Wrong | TooLarge | TooSmall | TooShort | TooLong

  /** A past recommendation of a resource and the answer to it. */
  datatype Feedback = Feedback(recommendation: Action, status: FeedbackStatus)
}
