/**
 * Request and response bodies of the HTTP surface, as the handlers read and write them.
 */
module Http {
  import opened Wrappers
  import opened ObjectIds
  import opened TodoModel
  import UserModel

  /** The JSON body of a request to a Todo route: every field some handler reads
      (`owner` is what a client might add to claim a Todo for another user). */
  datatype TaskRequest = TaskRequest(
    name: Option<string>,
    title: Option<string>,
    content: Option<string>,
    isCompleted: Option<bool>,
    owner: Option<ObjectId>,
    newTitle: Option<string>)

  /** The JSON body of `/auth/register` and `/auth/login` (login ignores `username`). */
  datatype Credentials = Credentials(username: string, email: string, password: string)

  /** The JSON bodies the handlers send. */
  datatype Body =
    | ErrorBody(error: string)                                   // { error }
    | MessageBody(message: string)                               // { message }
    | TaskListBody(items: seq<TaskView>)                         // [ {id, name, title, content, isCompleted} ]
    | TaskCreatedBody(message: string, data: TaskView)           // { message, data: {id, ...} }
    | RecordCreatedBody(message: string, record: Task)           // { message, data: <whole document> }
    | EchoBody(message: string, echoed: TaskRequest)             // { message, data: req.body }
    | UpdatedBody(updated: bool, view: Option<TaskView>)         // { updated } or { updated, data }
    | DeletedBody(deleted: bool)                                 // { deleted }
    | UserBody(message: string, user: UserModel.UserView)        // { message, user }
    | LoginBody(message: string, token: string, user: UserModel.UserView)  // { message, token, user }

  datatype Response = Response(status: int, body: Body)

  const NotFound := Response(404, MessageBody("Todo not found"))
}
