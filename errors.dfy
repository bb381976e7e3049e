/** The exceptions raised by the modelled code of mensaplan.py. */
module Errors {

  datatype Error =
    | IndexOutOfRange                 // IndexError: a list index past its end
    | NoCell                          // AttributeError: `find('td')` found no cell
    | NoImageSource                   // KeyError: an <img> without a src attribute
    | UnknownMealType(mealType: string)  // raised by Weekday.add_meal
    | SeparatorNotFound               // ValueError: `str.rindex` found no '/'
    | DateOutOfRange                  // OverflowError: a date outside years 1..9999
}
