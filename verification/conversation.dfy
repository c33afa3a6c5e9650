/** The chat history both agent loops send to the model: a list of `{"role", "content"}` dictionaries. */
module Conversation {

  datatype Role = System | User | Assistant

  datatype Turn = Turn(role: Role, content: string)
}
